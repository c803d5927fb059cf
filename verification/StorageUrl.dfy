/**
 The canonical name of an uploaded object, from client/services/storage_url.go: signed URLs
 of several providers and styles become `s3://bucket/key`.

 `url.Parse` is a parameter that yields the parts of a URL.
 */
module StorageUrl {
  import opened Basics
  import opened Strings

  /** `text` is the URL as it is printed without query and fragment. */
  datatype Url = Url(scheme: string, host: string, hostname: string, path: string,
                     query: map<string, seq<string>>, text: string)

  datatype UrlError = Unparsable | NoBucket | NoKey

  function Get(query: map<string, seq<string>>, name: string): string {
    if name in query && query[name] != [] then query[name][0] else ""
  }

  /** Of several values of one name the first counts, and none is the empty text. */
  lemma FirstValue(query: map<string, seq<string>>, name: string, value: string, more: seq<string>)
    ensures name !in query ==> Get(query, name) == ""
    ensures name in query && query[name] == [value] + more ==> Get(query, name) == value
  {
  }

  function S3Url(bucket: string, key: string): string {
    "s3://" + bucket + "/" + key
  }

  /** The path between its outer spaces and slashes. */
  function InnerPath(u: Url): string {
    Trim(TrimSpace(u.path), IsSlash)
  }

  function PathParts(u: Url): seq<string> {
    Split(InnerPath(u), '/')
  }

  // ---------- the two special shapes ----------

  /** The part after the first part `b` that has one, trimmed. */
  function BucketAfterB(parts: seq<string>): string {
    if |parts| < 2 then ""
    else if parts[0] == "b" then TrimSpace(parts[1])
    else BucketAfterB(parts[1..])
  }

  function GcsUpload(u: Url): Option<(string, string)> {
    var key := Trim(TrimSpace(Get(u.query, "name")), IsSlash);
    var bucket := BucketAfterB(PathParts(u));
    if TrimSpace(Get(u.query, "uploadType")) != "media" || key == "" || bucket == "" then None else Some((bucket, key))
  }

  method ParseGCSJSONUploadURL(u: Url) returns (r: Option<(string, string)>)
    ensures r == GcsUpload(u)
  {
    if TrimSpace(Get(u.query, "uploadType")) != "media" {
      return None;
    }
    var key := Trim(TrimSpace(Get(u.query, "name")), IsSlash);
    if key == "" {
      return None;
    }
    var parts := Split(Trim(TrimSpace(u.path), IsSlash), '/');
    var bucket := "";
    var i := 0;
    while i + 1 < |parts|
      invariant 0 <= i <= |parts|
      invariant bucket == "" && BucketAfterB(parts) == BucketAfterB(parts[i..])
    {
      assert parts[i..][1..] == parts[i + 1..];
      if parts[i] == "b" {
        bucket := TrimSpace(parts[i + 1]);
        break;
      }
      i := i + 1;
    }
    if bucket == "" {
      return None;
    }
    return Some((bucket, key));
  }

  predicate Contains(s: string, sub: string) {
    Cut(s, sub).Some?
  }

  /** An Azure blob URL has the container first; the emulator puts the account before it. */
  function ParseAzureBlobSignedURL(u: Url): Option<(string, string)> {
    var parts := PathParts(u);
    if TrimSpace(Get(u.query, "sig")) == "" || !EqualFold(TrimSpace(Get(u.query, "sr")), "b") then None
    else
      var at := if Contains(ToLower(TrimSpace(u.hostname)), ".blob.") then 0 else 1;
      if |parts| < at + 2 then None
      else
        var bucket, key := Trim(TrimSpace(parts[at]), IsSlash), Trim(Join(parts[at + 1..], '/'), IsSlash);
        if bucket == "" || key == "" then None else Some((bucket, key))
  }

  // ---------- canonical URLs ----------

  /** What a plain HTTP path means once the hint and the path are trimmed. */
  function PathObject(hint: string, path: string, fallback: string): Result<string, UrlError> {
    var cut := Cut(path, "/");
    var bucket := if hint == "" && cut.Some? then cut.value.0 else hint;
    var key := if hint == "" && cut.Some? then cut.value.1 else path;
    if bucket == "" then Err(NoBucket)
    else
      var stripped := TrimPrefix(key, bucket + "/");
      var final := if stripped == "" then fallback else stripped;
      if final == "" then Err(NoKey) else Ok(S3Url(bucket, final))
  }

  function LastPart(path: string): string {
    var parts := Split(path, '/');
    parts[|parts| - 1]
  }

  function Canonical(u: Url, bucketHint: string, fallbackDID: string): Result<string, UrlError> {
    var scheme := ToLower(u.scheme);
    if scheme == "file" then Ok(u.text)
    else if scheme == "http" || scheme == "https" then
      match GcsUpload(u)
      case Some((b, k)) => Ok(S3Url(b, k))
      case None =>
        (match ParseAzureBlobSignedURL(u)
         case Some((b, k)) => Ok(S3Url(b, k))
         case None => PathObject(TrimSpace(bucketHint), InnerPath(u), TrimSpace(fallbackDID)))
    else if u.scheme != "" && u.host != "" then Ok(u.text)
    else
      var key := if TrimSpace(fallbackDID) == "" && u.path != "" then LastPart(u.path) else TrimSpace(fallbackDID);
      if key == "" then Err(NoKey) else Ok(S3Url(bucketHint, key))
  }

  /** The canonical name of a URL given as text. */
  function CanonicalAt(parse: string -> Option<Url>, signedURL: string, bucketHint: string, fallbackDID: string):
    Result<string, UrlError>
  {
    match parse(TrimSpace(signedURL))
    case None => Err(Unparsable)
    case Some(u) => Canonical(u, bucketHint, fallbackDID)
  }

  /** Splitting everywhere and joining the rest again is cutting once. */
  lemma {:induction false} SplitVersusCut(s: string)
    ensures var parts := Split(s, '/');
            match Cut(s, "/")
            case None => parts == [s]
            case Some((a, b)) => |parts| > 1 && parts[0] == a && parts[1..] == Split(b, '/') && Join(parts[1..], '/') == b
  {
    if s != "" {
      SplitVersusCut(s[1..]);
      if s[0] == '/' {
        assert "/" <= s && Cut(s, "/") == Some(("", s[1..]));
        assert ([""] + Split(s[1..], '/'))[1..] == Split(s[1..], '/');
        JoinSplit(s[1..], '/');
      } else {
        var rest := Split(s[1..], '/');
        assert ([[s[0]] + rest[0]] + rest[1..])[1..] == rest[1..];
        assert [s[0]] + s[1..] == s;
      }
    }
  }

  /** The branch for plain HTTP paths. */
  method PathStyle(hint: string, path: string, fallback: string) returns (r: Result<string, UrlError>)
    ensures r == PathObject(hint, path, fallback)
  {
    var bucket, key := hint, path;
    if bucket == "" {
      var parts := Split(key, '/');
      SplitVersusCut(key);
      if |parts| > 1 {
        bucket := parts[0];
        key := Join(parts[1..], '/');
      }
    }
    if bucket == "" {
      return Err(NoBucket);
    }
    if bucket + "/" <= key {
      key := TrimPrefix(key, bucket + "/");
    }
    if key == "" {
      key := fallback;
    }
    if key == "" {
      return Err(NoKey);
    }
    return Ok(S3Url(bucket, key));
  }

  method CanonicalObjectURL(parse: string -> Option<Url>, signedURL: string, bucketHint: string, fallbackDID: string)
    returns (r: Result<string, UrlError>)
    ensures r == CanonicalAt(parse, signedURL, bucketHint, fallbackDID)
  {
    var parsed := parse(TrimSpace(signedURL));
    if parsed.None? {
      return Err(Unparsable);
    }
    var u := parsed.value;
    var scheme := ToLower(u.scheme);
    if scheme == "file" {
      return Ok(u.text);
    } else if scheme == "http" || scheme == "https" {
      var gcs := ParseGCSJSONUploadURL(u);
      if gcs.Some? {
        return Ok(S3Url(gcs.value.0, gcs.value.1));
      }
      var azure := ParseAzureBlobSignedURL(u);
      if azure.Some? {
        return Ok(S3Url(azure.value.0, azure.value.1));
      }
      r := PathStyle(TrimSpace(bucketHint), Trim(TrimSpace(u.path), IsSlash), TrimSpace(fallbackDID));
    } else {
      if u.scheme != "" && u.host != "" {
        return Ok(u.text);
      }
      var key := TrimSpace(fallbackDID);
      if key == "" && u.path != "" {
        var parts := Split(u.path, '/');
        var last := parts[|parts| - 1];
        if last != "" {
          key := last;
        }
      }
      if key == "" {
        return Err(NoKey);
      }
      return Ok(S3Url(bucketHint, key));
    }
  }

  // ---------- one object, one name ----------

  /** A bucket name as providers allow it, as far as it matters here. */
  ghost predicate Bucket(b: string) {
    b != "" && Trimmed(b, IsSpace) && '/' !in b
  }

  /** A key with neither spaces nor slashes at its ends. */
  ghost predicate Key(k: string) {
    k != "" && Trimmed(k, IsSpace) && Trimmed(k, IsSlash)
  }

  // when the two special shapes are taken

  /** Position i holds the first part `b` that has a part after it. */
  ghost predicate FirstB(parts: seq<string>, i: nat) {
    i + 1 < |parts| && parts[i] == "b" && forall j :: 0 <= j < i ==> parts[j] != "b"
  }

  lemma {:induction false} BucketAfterBIs(parts: seq<string>)
    ensures forall i: nat :: FirstB(parts, i) ==> BucketAfterB(parts) == TrimSpace(parts[i + 1])
    ensures BucketAfterB(parts) != "" ==> exists i: nat :: FirstB(parts, i)
  {
    if |parts| >= 2 {
      var rest := parts[1..];
      BucketAfterBIs(rest);
      if parts[0] == "b" {
        assert FirstB(parts, 0);
      } else {
        forall i: nat | FirstB(parts, i)
          ensures BucketAfterB(parts) == TrimSpace(parts[i + 1])
        {
          assert FirstB(rest, i - 1);
        }
        if i: nat :| FirstB(rest, i) {
          assert FirstB(parts, i + 1);
        }
      }
    }
  }

  /** A JSON upload: the upload type, a name, and a bucket after the first part `b`. */
  ghost predicate GcsShape(u: Url) {
    && TrimSpace(Get(u.query, "uploadType")) == "media"
    && Trim(TrimSpace(Get(u.query, "name")), IsSlash) != ""
    && exists i: nat :: FirstB(PathParts(u), i) && TrimSpace(PathParts(u)[i + 1]) != ""
  }

  lemma GcsAccepts(u: Url)
    ensures GcsUpload(u).Some? <==> GcsShape(u)
    ensures GcsUpload(u).Some? ==>
              && GcsUpload(u).value.1 == Trim(TrimSpace(Get(u.query, "name")), IsSlash)
              && forall i: nat :: FirstB(PathParts(u), i) ==> GcsUpload(u).value.0 == TrimSpace(PathParts(u)[i + 1])
  {
    BucketAfterBIs(PathParts(u));
  }

  lemma {:induction false} ContainsMeans(s: string, sub: string)
    ensures Contains(s, sub) <==> exists i :: 0 <= i <= |s| && sub <= s[i..]
  {
    if sub <= s {
      assert s[0..] == s;
    } else if s == "" {
      assert forall i :: 0 <= i <= |s| ==> s[i..] == s;
    } else {
      ContainsMeans(s[1..], sub);
      if i :| 0 <= i <= |s| && sub <= s[i..] {
        assert i > 0 by {
          assert s[0..] == s;
        }
        assert s[1..][i - 1..] == s[i..];
      }
      if i :| 0 <= i <= |s[1..]| && sub <= s[1..][i..] {
        assert s[i + 1..] == s[1..][i..];
      }
    }
  }

  lemma FoldsToB(s: string)
    ensures EqualFold(s, "b") <==> s in {"b", "B"}
  {
    assert ToLower("b") == "b";
    assert |ToLower(s)| == |s|;
    if |s| == 1 {
      assert s == [s[0]] && s[1..] == "";
      assert ToLower(s) == [LowerChar(s[0])] + "" == [LowerChar(s[0])];
      assert LowerChar(s[0]) == 'b' <==> s[0] == 'b' || s[0] == 'B';
      assert [s[0]] == "b" <==> s[0] == 'b';
      assert [s[0]] == "B" <==> s[0] == 'B';
    }
  }

  /** The container's place in the path: first on Azure's own hosts, after the account elsewhere. */
  function ContainerAt(u: Url): nat {
    if Contains(ToLower(TrimSpace(u.hostname)), ".blob.") then 0 else 1
  }

  /** A signed blob: a signature, a resource type `b`, a container and something after it. */
  ghost predicate AzureShape(u: Url) {
    && TrimSpace(Get(u.query, "sig")) != ""
    && TrimSpace(Get(u.query, "sr")) in {"b", "B"}
    && var parts, at := PathParts(u), ContainerAt(u);
       && |parts| > at + 1
       && Trim(TrimSpace(parts[at]), IsSlash) != "" && Trim(Join(parts[at + 1..], '/'), IsSlash) != ""
  }

  lemma AzureAccepts(u: Url)
    ensures ParseAzureBlobSignedURL(u).Some? <==> AzureShape(u)
  {
    FoldsToB(TrimSpace(Get(u.query, "sr")));
  }

  /** An HTTP URL of neither shape: only its path counts. */
  ghost predicate PlainHttp(u: Url) {
    (ToLower(u.scheme) == "http" || ToLower(u.scheme) == "https") && !GcsShape(u) && !AzureShape(u)
  }

  lemma PlainDeclined(u: Url)
    requires PlainHttp(u)
    ensures GcsUpload(u).None? && ParseAzureBlobSignedURL(u).None?
  {
    GcsAccepts(u);
    AzureAccepts(u);
  }

  /** For that the query is enough: no upload type or no name, and no signature or no blob. */
  lemma PlainQuery(u: Url)
    requires ToLower(u.scheme) == "http" || ToLower(u.scheme) == "https"
    requires TrimSpace(Get(u.query, "uploadType")) != "media" || Trim(TrimSpace(Get(u.query, "name")), IsSlash) == ""
    requires TrimSpace(Get(u.query, "sig")) == "" || TrimSpace(Get(u.query, "sr")) !in {"b", "B"}
    ensures PlainHttp(u) && GcsUpload(u).None? && ParseAzureBlobSignedURL(u).None?
  {
    PlainDeclined(u);
  }

  lemma InnerOf(u: Url, core: string)
    requires u.path == "/" + core && Key(core)
    ensures InnerPath(u) == core
  {
    assert !IsSpace('/');
    assert u.path[|u.path| - 1] == core[|core| - 1];
    TrimOfTrimmed(u.path, IsSpace);
    TrimAround("/", core, "", IsSlash);
    assert "/" + core + "" == u.path;
  }

  lemma BucketKeyCore(b: string, k: string)
    requires Bucket(b) && Key(k)
    ensures Key(b + "/" + k) && Cut(b + "/" + k, "/") == Some((b, k)) && TrimPrefix(b + "/" + k, b + "/") == k
  {
    var core := b + "/" + k;
    assert core[0] == b[0] && core[|core| - 1] == k[|k| - 1];
    CutAtFirst(b, "/", k);
    assert core == (b + "/") + k;
    assert core[|b + "/"|..] == k;
  }

  /** Path style with the bucket as hint always names the object. */
  lemma PathStyleHinted(u: Url, b: string, k: string, hint: string, did: string)
    requires PlainHttp(u) && Bucket(b) && Key(k) && u.path == "/" + (b + "/" + k) && TrimSpace(hint) == b
    ensures Canonical(u, hint, did) == Ok(S3Url(b, k))
  {
    PlainDeclined(u);
    BucketKeyCore(b, k);
    InnerOf(u, b + "/" + k);
  }

  lemma StrippedTwice(b: string, k: string)
    requires Bucket(b) && Key(k)
    ensures b + "/" <= k ==> k[|b| + 1..] != "" && S3Url(b, k[|b| + 1..]) != S3Url(b, k)
  {
    if b + "/" <= k {
      assert k[|b|] == (b + "/")[|b|] == '/';
      assert |S3Url(b, k)| == 6 + |b| + |k|;
      assert |S3Url(b, k[|b| + 1..])| == 6 + |b| + |k| - |b| - 1;
    }
  }

  lemma UnhintedObject(b: string, k: string, fallback: string)
    requires Bucket(b) && Key(k)
    ensures PathObject("", b + "/" + k, fallback) == Ok(S3Url(b, if b + "/" <= k then k[|b| + 1..] else k))
  {
    BucketKeyCore(b, k);
    StrippedTwice(b, k);
  }

  /**
   Path style without a hint names the object exactly if its key does not begin with the
   bucket's own name: the bucket is stripped once as a path segment and once more as a prefix.
   */
  lemma PathStyleUnhinted(u: Url, b: string, k: string, hint: string, did: string)
    requires PlainHttp(u) && Bucket(b) && Key(k) && u.path == "/" + (b + "/" + k) && TrimSpace(hint) == ""
    ensures Canonical(u, hint, did) == Ok(S3Url(b, k)) <==> !(b + "/" <= k)
    ensures b + "/" <= k ==> Canonical(u, hint, did) == Ok(S3Url(b, k[|b| + 1..]))
  {
    PlainDeclined(u);
    BucketKeyCore(b, k);
    InnerOf(u, b + "/" + k);
    UnhintedObject(b, k, TrimSpace(did));
    assert Canonical(u, hint, did) == PathObject("", b + "/" + k, TrimSpace(did));
    StrippedTwice(b, k);
  }

  /** Virtual-hosted style needs the hint, and names the object under the same condition. */
  lemma VirtualHosted(u: Url, b: string, k: string, hint: string, did: string)
    requires PlainHttp(u) && Bucket(b) && Key(k) && u.path == "/" + k && TrimSpace(hint) == b
    ensures Canonical(u, hint, did) == Ok(S3Url(b, k)) <==> !(b + "/" <= k)
  {
    PlainDeclined(u);
    InnerOf(u, k);
    StrippedTwice(b, k);
  }

  lemma {:induction false} BucketFound(before: seq<string>, b: string, after: seq<string>)
    requires "b" !in before
    ensures BucketAfterB(before + ["b", b] + after) == TrimSpace(b)
  {
    var parts := before + ["b", b] + after;
    if before == [] {
      assert parts[0] == "b" && parts[1] == b;
    } else {
      assert parts[0] == before[0];
      assert parts[1..] == before[1..] + ["b", b] + after;
      BucketFound(before[1..], b, after);
    }
  }

  /** The JSON upload form of Google's storage names the object whatever the hint says. */
  lemma GcsJsonUpload(u: Url, b: string, k: string, hint: string, did: string)
    requires ToLower(u.scheme) == "http" || ToLower(u.scheme) == "https"
    requires Bucket(b) && Key(k)
    requires PathParts(u) == ["upload", "storage", "v1", "b", b, "o"]
    requires Get(u.query, "uploadType") == "media" && Get(u.query, "name") == k
    ensures Canonical(u, hint, did) == Ok(S3Url(b, k))
  {
    TrimOfTrimmed("media", IsSpace);
    TrimOfTrimmed(k, IsSpace);
    TrimOfTrimmed(k, IsSlash);
    TrimOfTrimmed(b, IsSpace);
    BucketFound(["upload", "storage", "v1"], b, ["o"]);
    assert PathParts(u) == ["upload", "storage", "v1"] + ["b", b] + ["o"];
  }

  lemma AzureParts(u: Url, account: string, b: string, k: string)
    requires Bucket(b) && Key(k) && Bucket(account)
    ensures u.path == "/" + (b + "/" + k) ==>
              var parts := PathParts(u); |parts| >= 2 && parts[0] == b && Join(parts[1..], '/') == k
    ensures u.path == "/" + (account + "/" + (b + "/" + k)) ==>
              var parts := PathParts(u); |parts| >= 3 && parts[1] == b && Join(parts[2..], '/') == k
  {
    BucketKeyCore(b, k);
    SplitVersusCut(b + "/" + k);
    if u.path == "/" + (b + "/" + k) {
      InnerOf(u, b + "/" + k);
    }
    if u.path == "/" + (account + "/" + (b + "/" + k)) {
      BucketKeyCore(account, b + "/" + k);
      InnerOf(u, account + "/" + (b + "/" + k));
      SplitVersusCut(account + "/" + (b + "/" + k));
      var parts := PathParts(u);
      assert parts[1] == parts[1..][0] && parts[2..] == parts[1..][1..];
    }
  }

  /** Azure's form, and its emulator's, name the object whatever the hint says and however the key begins. */
  lemma AzureBlob(u: Url, account: string, b: string, k: string, hint: string, did: string)
    requires ToLower(u.scheme) == "http" || ToLower(u.scheme) == "https"
    requires !GcsShape(u)
    requires Bucket(b) && Key(k) && Bucket(account)
    requires TrimSpace(Get(u.query, "sig")) != "" && TrimSpace(Get(u.query, "sr")) in {"b", "B"}
    requires u.path == if Contains(ToLower(TrimSpace(u.hostname)), ".blob.") then "/" + (b + "/" + k)
                       else "/" + (account + "/" + (b + "/" + k))
    ensures Canonical(u, hint, did) == Ok(S3Url(b, k))
  {
    GcsAccepts(u);
    FoldsToB(TrimSpace(Get(u.query, "sr")));
    AzureParts(u, account, b, k);
    TrimOfTrimmed(b, IsSpace);
    TrimOfTrimmed(b, IsSlash);
    TrimOfTrimmed(k, IsSlash);
  }

  lemma {:induction false} SlashCuts(front: string, last: string)
    ensures Cut(front + "/" + last, "/").Some?
  {
    var s := front + "/" + last;
    if front != "" {
      assert s[1..] == front[1..] + "/" + last;
      SlashCuts(front[1..], last);
    }
  }

  lemma {:induction false} LastPartOf(front: string, last: string)
    requires '/' !in last
    ensures LastPart(front + "/" + last) == last
  {
    var s := front + "/" + last;
    if front == "" {
      assert s[1..] == last;
      SplitOne(last, '/');
    } else {
      assert s[1..] == front[1..] + "/" + last;
      LastPartOf(front[1..], last);
      var rest := Split(s[1..], '/');
      assert |rest| >= 2 by {
        SplitVersusCut(s[1..]);
        SlashCuts(front[1..], last);
      }
    }
  }

  // ---------- URLs without an object in them ----------

  /** A plain HTTP URL without a bucket is refused exactly if neither the hint nor the path has one. */
  lemma NoBucketExactly(u: Url, hint: string, did: string)
    requires PlainHttp(u)
    ensures Canonical(u, hint, did) == Err(NoBucket) <==>
            TrimSpace(hint) == "" && '/' !in InnerPath(u)
  {
    PlainDeclined(u);
    SplitVersusCut(InnerPath(u));
    var _, _ := TrimParts(TrimSpace(u.path), IsSlash);
    JoinSplit(InnerPath(u), '/');
    assert '/' !in Split(InnerPath(u), '/')[0];
  }

  /** A bucket without a path is named with the fallback as key, and refused without one. */
  lemma PathlessName(u: Url, hint: string, did: string)
    requires PlainHttp(u) && TrimSpace(hint) != "" && InnerPath(u) == ""
    ensures Canonical(u, hint, did) ==
            if TrimSpace(did) == "" then Err(NoKey) else Ok(S3Url(TrimSpace(hint), TrimSpace(did)))
  {
    PlainDeclined(u);
  }

  /** A URL without scheme or host is named by the fallback, or else by the last segment of its path. */
  lemma HostlessName(u: Url, hint: string, did: string, front: string, last: string)
    requires ToLower(u.scheme) != "file" && ToLower(u.scheme) != "http" && ToLower(u.scheme) != "https"
    requires u.scheme == "" || u.host == ""
    requires '/' !in last && (u.path == last || u.path == front + "/" + last)
    ensures Canonical(u, hint, did) ==
            if TrimSpace(did) != "" then Ok(S3Url(hint, TrimSpace(did)))
            else if last != "" then Ok(S3Url(hint, last))
            else Err(NoKey)
  {
    if u.path == front + "/" + last {
      LastPartOf(front, last);
    } else {
      SplitOne(last, '/');
    }
  }
}
