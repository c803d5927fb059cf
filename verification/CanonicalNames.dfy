/**
 Canonical names, client/services/storage_url.go once more: what happens to a canonical name
 that is canonicalised again. Names are put together from decoded parts, but a URL that is
 not HTTP is answered as it is printed, that is, encoded; so not every name is stable.
 */
module CanonicalNames {
  import opened Basics
  import opened Strings
  import opened UrlText
  import opened StorageUrl

  // ---------- what is assumed of parsing and printing ----------

  /** How a bucket is read between `//` and the path: the host in it, and the text it is printed as. */
  datatype Authority = Authority(host: string, printed: string)

  /** A path is printed as it was written if it may be, and otherwise in characters that may. */
  ghost predicate PathPrinted(path: string, printed: string) {
    All(printed, IsPathChar) && (All(path, IsPathChar) ==> printed == path)
  }

  /** Only an empty query leaves a trace, its question mark. */
  function QueryPrinted(rest: string): string {
    if rest == "?" || "?#" <= rest then "?" else ""
  }

  /** How `s3://a/k` is read and printed; a mark inside `a` ends the URL's path before it begins. */
  ghost predicate NamePrinted(authority: string -> Option<Authority>, a: string, k: string, parsed: Option<Url>) {
    match parsed
    case None => !Free(a, IsMark) || authority(a).None? || !Free(k, IsControl) || !EscapesComplete(k)
    case Some(u) =>
      && u.scheme == "s3"
      && (Free(a, IsMark) ==>
            && authority(a).Some? && u.host == authority(a).value.host
            && EscapesComplete(BeforeMark(k))
            && exists path :: PathPrinted(BeforeMark(k), path)
                 && u.text == S3Url(authority(a).value.printed, path) + QueryPrinted(AfterMark(k)))
      && (!Free(a, IsMark) && u.host != "" ==> exists x :: '/' !in x && u.text == "s3://" + x)
  }

  /** URLs that are answered as they are printed. */
  predicate Verbatim(u: Url) {
    var scheme := ToLower(u.scheme);
    scheme == "file" || (scheme != "http" && scheme != "https" && u.scheme != "" && u.host != "")
  }

  /** Printed text is read as the same URL and printed the same way. */
  ghost predicate Reprinted(u: Url, again: Option<Url>) {
    && again.Some?
    && again.value.scheme == u.scheme && again.value.host == u.host
    && again.value.text == TrimSpace(u.text)
  }

  /**
   What is assumed of `url.Parse` and `URL.String`. `authority` stands for how they treat the
   part before the path.
   */
  ghost predicate Prints(parse: string -> Option<Url>, authority: string -> Option<Authority>) {
    && (forall a :: a != "" && All(a, IsUnreserved) ==> authority(a) == Some(Authority(a, a)))
    && (forall a :: authority(a).Some? ==> '/' !in authority(a).value.printed)
    && (forall a, k :: '/' !in a ==> NamePrinted(authority, a, k, parse(S3Url(a, k))))
    && (forall text :: parse(text).Some? && Verbatim(parse(text).value) ==>
          Reprinted(parse(text).value, parse(TrimSpace(parse(text).value.text))))
  }

  // ---------- which names are stable ----------

  /** The name is its own canonical name, whatever the hint and the fallback. */
  ghost predicate Stable(parse: string -> Option<Url>, name: string) {
    forall hint, did :: CanonicalAt(parse, name, hint, did) == Ok(name)
  }

  /** The bucket names a host and is printed as it is. */
  ghost predicate KeptBucket(authority: string -> Option<Authority>, a: string) {
    Free(a, IsMark) && authority(a).Some? && authority(a).value.host != "" && authority(a).value.printed == a
  }

  /** Only characters a path is printed with, every percent sign an escape, and at most one question mark, at the end. */
  ghost predicate KeptKey(k: string) {
    && All(BeforeMark(k), IsPathChar) && EscapesComplete(BeforeMark(k))
    && (AfterMark(k) == "" || AfterMark(k) == "?")
  }

  lemma S3UrlParts(a: string, x: string, b: string, y: string)
    requires '/' !in a && '/' !in b && S3Url(a, x) == S3Url(b, y)
    ensures a == b && x == y
  {
    assert S3Url(a, x)[5..] == a + "/" + x && S3Url(b, y)[5..] == b + "/" + y;
    CutAtFirst(a, "/", x);
    CutAtFirst(b, "/", y);
  }

  /** A printed key equals the key exactly if nothing had to be rewritten or dropped. */
  lemma KeyPrinted(k: string, path: string)
    requires PathPrinted(BeforeMark(k), path)
    ensures path + QueryPrinted(AfterMark(k)) == k <==>
            All(BeforeMark(k), IsPathChar) && (AfterMark(k) == "" || AfterMark(k) == "?")
  {
    var before, after := BeforeMark(k), AfterMark(k);
    assert k == before + after;
    if path + QueryPrinted(after) == k && |path| <= |before| {
      assert |QueryPrinted(after)| >= |after|;
      assert path == before;
    }
  }

  lemma CompleteAppend(before: string, after: string)
    requires EscapesComplete(before) && '%' !in after
    ensures EscapesComplete(before + after)
  {
    var k := before + after;
    forall i | 0 <= i < |k| && k[i] == '%'
      ensures EscapeAt(k[i..])
    {
      assert i < |before| && before[i] == '%';
      assert EscapeAt(before[i..]) && before[i..] <= k[i..];
    }
  }

  lemma PathCharIsNoControl(c: char)
    requires IsPathChar(c)
    ensures !IsControl(c)
  {
  }

  lemma KeptIsComplete(k: string)
    requires KeptKey(k)
    ensures Free(k, IsControl) && EscapesComplete(k)
  {
    var before, after := BeforeMark(k), AfterMark(k);
    assert k == before + after;
    CompleteAppend(before, after);
    forall i | 0 <= i < |before|
      ensures !IsControl(before[i])
    {
      PathCharIsNoControl(before[i]);
    }
    assert Free(after, IsControl);
  }

  /** Trimming the text of a name shortens its key at most. */
  lemma NameTrims(a: string, k: string) returns (k': string)
    ensures TrimSpace(S3Url(a, k)) == S3Url(a, k') && k' <= k
    ensures k' == k <==> Trimmed(S3Url(a, k), IsSpace)
  {
    var head := S3Url(a, "");
    assert !IsSpace('s') && !IsSpace('/') && head[0] == 's' && head[|head| - 1] == '/';
    k' := TrimTail("", head, k, IsSpace);
    assert "" + head + k == S3Url(a, k) && head + k' == S3Url(a, k');
    var _, _ := TrimParts(S3Url(a, k), IsSpace);
    if Trimmed(S3Url(a, k), IsSpace) {
      TrimOfTrimmed(S3Url(a, k), IsSpace);
      assert |S3Url(a, k)| == |S3Url(a, k')|;
    }
  }

  lemma NameEnds(a: string, k: string)
    ensures Trimmed(S3Url(a, k), IsSpace) <==> k == "" || !IsSpace(k[|k| - 1])
  {
    var n := S3Url(a, k);
    assert n[0] == 's' && n[|n| - 1] == if k == "" then '/' else k[|k| - 1];
    assert !IsSpace('s') && !IsSpace('/');
  }

  lemma PathCharIsNoSpace(c: char)
    requires IsPathChar(c)
    ensures !IsSpace(c)
  {
  }

  lemma KeptIsTrimmed(a: string, k: string)
    requires KeptKey(k)
    ensures Trimmed(S3Url(a, k), IsSpace)
  {
    NameEnds(a, k);
    assert k == BeforeMark(k) + AfterMark(k);
    if AfterMark(k) == "" && k != "" {
      PathCharIsNoSpace(BeforeMark(k)[|k| - 1]);
    }
  }

  /** The host decides the branch: with one, the URL is answered as printed. */
  lemma S3Branch(u: Url, hint: string, did: string)
    requires u.scheme == "s3"
    ensures u.host != "" ==> Canonical(u, hint, did) == Ok(u.text)
    ensures u.host == "" ==> forall name :: Canonical(u, hint, did) == Ok(name) ==> S3Url(hint, "") <= name
  {
    assert ToLower("s3") == "s3" by {
      assert ToLower("3") == "3";
    }
    assert "s3" != "file" && "s3" != "http" && "s3" != "https";
  }

  lemma HintShows(hint: string, name: string)
    requires |hint| == 1 && S3Url(hint, "") <= name
    ensures |name| > 5 && name[5] == hint[0]
  {
    assert name[5] == S3Url(hint, "")[5];
  }

  /** Without a host the answer depends on the hint, so no name is stable. */
  lemma HostlessNotStable(parse: string -> Option<Url>, name: string)
    requires parse(TrimSpace(name)).Some?
    requires var u := parse(TrimSpace(name)).value; u.scheme == "s3" && u.host == ""
    ensures !Stable(parse, name)
  {
    var u := parse(TrimSpace(name)).value;
    if Stable(parse, name) {
      assert CanonicalAt(parse, name, "a", "") == Ok(name) && CanonicalAt(parse, name, "b", "") == Ok(name);
      S3Branch(u, "a", "");
      S3Branch(u, "b", "");
      HintShows("a", name);
      HintShows("b", name);
    }
  }

  /** With a host, the name is stable exactly if it is printed as it is. */
  lemma HostedStable(parse: string -> Option<Url>, name: string)
    requires parse(TrimSpace(name)).Some?
    requires var u := parse(TrimSpace(name)).value; u.scheme == "s3" && u.host != ""
    ensures Stable(parse, name) <==> parse(TrimSpace(name)).value.text == name
  {
    var u := parse(TrimSpace(name)).value;
    forall hint, did
      ensures CanonicalAt(parse, name, hint, did) == Ok(u.text)
    {
      S3Branch(u, hint, did);
    }
    assert Stable(parse, name) ==> CanonicalAt(parse, name, "", "") == Ok(name);
  }

  lemma KeptIsStable(parse: string -> Option<Url>, authority: string -> Option<Authority>, a: string, k: string)
    requires Prints(parse, authority) && '/' !in a && KeptBucket(authority, a) && KeptKey(k)
    ensures Stable(parse, S3Url(a, k))
  {
    var name := S3Url(a, k);
    KeptIsTrimmed(a, k);
    TrimOfTrimmed(name, IsSpace);
    KeptIsComplete(k);
    assert NamePrinted(authority, a, k, parse(name));
    var u := parse(name).value;
    var path :| PathPrinted(BeforeMark(k), path) && u.text == S3Url(a, path) + QueryPrinted(AfterMark(k));
    KeyPrinted(k, path);
    assert S3Url(a, path) + QueryPrinted(AfterMark(k)) == S3Url(a, path + QueryPrinted(AfterMark(k)));
    HostedStable(parse, name);
  }

  lemma NoPathLeft(a: string, k: string, x: string)
    requires '/' !in x
    ensures S3Url(a, k) != "s3://" + x
  {
    assert S3Url(a, k)[5 + |a|] == '/';
    if |x| > |a| {
      assert ("s3://" + x)[5 + |a|] == x[|a|];
    }
  }

  /** What is printed does not end in a space, so no space was trimmed. */
  lemma PrintedNotTrimmed(k: string, k': string, path: string)
    requires k' <= k && PathPrinted(BeforeMark(k'), path) && path + QueryPrinted(AfterMark(k')) == k
    ensures k' == k
  {
  }

  /** If the name, trimmed, is printed as the name, nothing in it had to be rewritten or dropped. */
  lemma PrintedIsKept(authority: string -> Option<Authority>, a: string, k: string, k': string, u: Url)
    requires '/' !in a && Free(a, IsMark) && k' <= k
    requires NamePrinted(authority, a, k', Some(u)) && '/' !in authority(a).value.printed
    requires u.host != "" && u.text == S3Url(a, k)
    ensures KeptBucket(authority, a) && KeptKey(k)
  {
    var printed := authority(a).value.printed;
    var path :| PathPrinted(BeforeMark(k'), path) && u.text == S3Url(printed, path) + QueryPrinted(AfterMark(k'));
    var key := path + QueryPrinted(AfterMark(k'));
    assert u.text == S3Url(printed, key);
    S3UrlParts(printed, key, a, k);
    PrintedNotTrimmed(k, k', path);
    KeyPrinted(k, path);
  }

  lemma StableIsKept(parse: string -> Option<Url>, authority: string -> Option<Authority>, a: string, k: string)
    requires Prints(parse, authority) && '/' !in a && Stable(parse, S3Url(a, k))
    ensures KeptBucket(authority, a) && KeptKey(k)
  {
    var name := S3Url(a, k);
    var k' := NameTrims(a, k);
    assert CanonicalAt(parse, name, "", "") == Ok(name);
    assert NamePrinted(authority, a, k', parse(S3Url(a, k')));
    var u := parse(S3Url(a, k')).value;
    if u.host == "" {
      HostlessNotStable(parse, name);
    }
    HostedStable(parse, name);
    if !Free(a, IsMark) {
      var x :| '/' !in x && u.text == "s3://" + x;
      NoPathLeft(a, k, x);
      assert false;
    }
    PrintedIsKept(authority, a, k, k', u);
  }

  /**
   The name of a bucket without a slash and a key is stable if and only if the bucket names a
   host that is printed as it is, and the key holds only what a path is printed with.
   */
  lemma NameStable(parse: string -> Option<Url>, authority: string -> Option<Authority>, a: string, k: string)
    requires Prints(parse, authority) && '/' !in a
    ensures Stable(parse, S3Url(a, k)) <==> KeptBucket(authority, a) && KeptKey(k)
  {
    if KeptBucket(authority, a) && KeptKey(k) {
      KeptIsStable(parse, authority, a, k);
    }
    if Stable(parse, S3Url(a, k)) {
      StableIsKept(parse, authority, a, k);
    }
  }

  lemma VerbatimBranch(u: Url, hint: string, did: string)
    requires Verbatim(u)
    ensures Canonical(u, hint, did) == Ok(u.text)
  {
  }

  lemma SameBranch(u: Url, again: Url)
    requires Verbatim(u) && again.scheme == u.scheme && again.host == u.host
    ensures Verbatim(again)
  {
  }

  /** A URL that is answered as printed is stable from then on, unless a space at its end is trimmed away. */
  lemma VerbatimStable(parse: string -> Option<Url>, authority: string -> Option<Authority>, text: string)
    requires Prints(parse, authority)
    requires parse(text).Some? && Verbatim(parse(text).value)
    ensures Stable(parse, parse(text).value.text) <==> Trimmed(parse(text).value.text, IsSpace)
  {
    var u := parse(text).value;
    assert Reprinted(u, parse(TrimSpace(u.text)));
    var again := parse(TrimSpace(u.text)).value;
    SameBranch(u, again);
    forall hint, did
      ensures CanonicalAt(parse, u.text, hint, did) == Ok(TrimSpace(u.text))
    {
      VerbatimBranch(again, hint, did);
    }
    assert Stable(parse, u.text) ==> CanonicalAt(parse, u.text, "", "") == Ok(u.text);
    var _, _ := TrimParts(u.text, IsSpace);
    if Trimmed(u.text, IsSpace) {
      TrimOfTrimmed(u.text, IsSpace);
    }
  }

  // ---------- canonicalising twice ----------

  lemma FirstSlash(text: string)
    requires '/' in text
    ensures Cut(text, "/").Some? && '/' !in Cut(text, "/").value.0
  {
    SplitVersusCut(text);
    assert '/' !in Split(text, '/')[0];
  }

  lemma BuiltFrom(u: Url, hint: string, did: string) returns (b: string, key: string)
    requires Canonical(u, hint, did).Ok? && !Verbatim(u)
    ensures Canonical(u, hint, did) == Ok(S3Url(b, key))
  {
    var scheme := ToLower(u.scheme);
    if scheme == "http" || scheme == "https" {
      if GcsUpload(u).Some? {
        return GcsUpload(u).value.0, GcsUpload(u).value.1;
      }
      if ParseAzureBlobSignedURL(u).Some? {
        return ParseAzureBlobSignedURL(u).value.0, ParseAzureBlobSignedURL(u).value.1;
      }
      var path := InnerPath(u);
      var cut := Cut(path, "/");
      b := if TrimSpace(hint) == "" && cut.Some? then cut.value.0 else TrimSpace(hint);
      var stripped := TrimPrefix(if TrimSpace(hint) == "" && cut.Some? then cut.value.1 else path, b + "/");
      key := if stripped == "" then TrimSpace(did) else stripped;
    } else {
      b := hint;
      key := if TrimSpace(did) == "" && u.path != "" then LastPart(u.path) else TrimSpace(did);
    }
  }

  lemma SplitAtSlash(b: string, key: string) returns (a: string, k: string)
    ensures '/' !in a && S3Url(b, key) == S3Url(a, k)
  {
    var text := b + "/" + key;
    assert text[|b|] == '/';
    FirstSlash(text);
    a, k := Cut(text, "/").value.0, Cut(text, "/").value.1;
    assert S3Url(b, key) == "s3://" + text && S3Url(a, k) == "s3://" + (a + "/" + k);
  }

  /** A name that is put together is `s3://` with a bucket and a key. */
  lemma NameShape(u: Url, hint: string, did: string) returns (a: string, k: string)
    requires Canonical(u, hint, did).Ok? && !Verbatim(u)
    ensures '/' !in a && Canonical(u, hint, did) == Ok(S3Url(a, k))
  {
    var b, key := BuiltFrom(u, hint, did);
    a, k := SplitAtSlash(b, key);
  }

  /**
   Canonicalising twice, exactly. Whatever URL, hint and fallback a canonical name came from,
   canonicalising it again with any hint and fallback gives it back if and only if
   it was answered as printed and has no space at its end, or its bucket names a host that is
   printed as it is and its key holds only what a path is printed with.
   */
  lemma CanonicalTwice(parse: string -> Option<Url>, authority: string -> Option<Authority>,
                       text: string, hint: string, did: string) returns (a: string, k: string)
    requires Prints(parse, authority) && CanonicalAt(parse, text, hint, did).Ok?
    ensures var u, name := parse(TrimSpace(text)).value, CanonicalAt(parse, text, hint, did).value;
            if Verbatim(u) then name == u.text && (Stable(parse, name) <==> Trimmed(name, IsSpace))
            else
              && '/' !in a && name == S3Url(a, k)
              && (Stable(parse, name) <==> KeptBucket(authority, a) && KeptKey(k))
  {
    var u := parse(TrimSpace(text)).value;
    a, k := "", "";
    if Verbatim(u) {
      VerbatimBranch(u, hint, did);
      VerbatimStable(parse, authority, TrimSpace(text));
    } else {
      a, k := NameShape(u, hint, did);
      NameStable(parse, authority, a, k);
    }
  }

  lemma UnreservedBucket(parse: string -> Option<Url>, authority: string -> Option<Authority>, b: string, k: string)
    requires Prints(parse, authority) && b != "" && All(b, IsUnreserved) && '/' !in b
    ensures Stable(parse, S3Url(b, k)) <==> KeptKey(k)
  {
    assert authority(b) == Some(Authority(b, b));
    assert Free(b, IsMark);
    NameStable(parse, authority, b, k);
  }

  lemma PathStyleNamed(parse: string -> Option<Url>, text: string, b: string, k: string, did: string)
    requires parse(TrimSpace(text)).Some? && Bucket(b) && Key(k)
    requires var u := parse(TrimSpace(text)).value; PlainHttp(u) && u.path == "/" + (b + "/" + k)
    ensures CanonicalAt(parse, text, b, did) == Ok(S3Url(b, k))
  {
    TrimOfTrimmed(b, IsSpace);
    PathStyleHinted(parse(TrimSpace(text)).value, b, k, b, did);
  }

  /** For a bucket named as providers allow, the key alone decides. */
  lemma PathStyleTwice(parse: string -> Option<Url>, authority: string -> Option<Authority>,
                       text: string, b: string, k: string, did: string)
    requires Prints(parse, authority) && parse(TrimSpace(text)).Some?
    requires All(b, IsUnreserved) && Bucket(b) && Key(k)
    requires var u := parse(TrimSpace(text)).value; PlainHttp(u) && u.path == "/" + (b + "/" + k)
    ensures CanonicalAt(parse, text, b, did) == Ok(S3Url(b, k))
    ensures Stable(parse, S3Url(b, k)) <==> KeptKey(k)
  {
    PathStyleNamed(parse, text, b, k, did);
    UnreservedBucket(parse, authority, b, k);
  }

  lemma SpacedKey(k: string)
    requires ' ' in k
    ensures !KeptKey(k)
  {
    var i :| 0 <= i < |k| && k[i] == ' ';
    assert k == BeforeMark(k) + AfterMark(k);
    assert !IsPathChar(' ');
  }

  /** So every key with a space inside has a name that does not last, such as `my file`. */
  lemma SpaceIsRewritten(parse: string -> Option<Url>, authority: string -> Option<Authority>,
                         text: string, b: string, k: string, did: string)
    requires Prints(parse, authority) && parse(TrimSpace(text)).Some?
    requires All(b, IsUnreserved) && Bucket(b) && Key(k) && ' ' in k
    requires var u := parse(TrimSpace(text)).value; PlainHttp(u) && u.path == "/" + (b + "/" + k)
    ensures CanonicalAt(parse, text, b, did) == Ok(S3Url(b, k)) && !Stable(parse, S3Url(b, k))
  {
    PathStyleTwice(parse, authority, text, b, k, did);
    SpacedKey(k);
  }

  // ---------- the assumption can be met ----------

  function PlainAuthority(a: string): Option<Authority> {
    if a != "" && forall i | 0 <= i < |a| :: IsUnreserved(a[i]) then Some(Authority(a, a)) else None
  }

  /** A path is printed as it is, or, if it may not be, not at all. */
  function PlainPath(path: string): string {
    if forall i | 0 <= i < |path| :: IsPathChar(path[i]) then path else ""
  }

  /** A parser for names only. */
  ghost function ParseName(text: string): Option<Url> {
    if !("s3://" <= text) || Cut(text[5..], "/").None? then None
    else
      var (a, k) := Cut(text[5..], "/").value;
      if PlainAuthority(a).None? || !Free(k, IsControl) || !EscapesComplete(k) then None
      else Some(Url("s3", a, a, "/" + k, map[], S3Url(a, PlainPath(BeforeMark(k)) + QueryPrinted(AfterMark(k)))))
  }

  lemma ParsedName(a: string, k: string)
    requires '/' !in a
    ensures ParseName(S3Url(a, k)) ==
            if PlainAuthority(a).None? || !Free(k, IsControl) || !EscapesComplete(k) then None
            else Some(Url("s3", a, a, "/" + k, map[], S3Url(a, PlainPath(BeforeMark(k)) + QueryPrinted(AfterMark(k)))))
  {
    assert S3Url(a, k)[5..] == a + "/" + k;
    CutAtFirst(a, "/", k);
  }

  lemma EscapeBeforeMark(s: string, rest: string)
    requires s != "" && EscapeAt(s + rest) && (rest != "" ==> IsMark(rest[0]))
    ensures EscapeAt(s)
  {
    assert HexValue('?').None? && HexValue('#').None?;
  }

  lemma CompletePrefix(before: string, after: string)
    requires EscapesComplete(before + after) && (after != "" ==> IsMark(after[0]))
    ensures EscapesComplete(before)
  {
    forall i | 0 <= i < |before| && before[i] == '%'
      ensures EscapeAt(before[i..])
    {
      assert (before + after)[i] == '%' && (before + after)[i..] == before[i..] + after;
      EscapeBeforeMark(before[i..], after);
    }
  }

  lemma CompleteBefore(k: string)
    requires EscapesComplete(k)
    ensures EscapesComplete(BeforeMark(k))
  {
    assert k == BeforeMark(k) + AfterMark(k);
    CompletePrefix(BeforeMark(k), AfterMark(k));
  }

  lemma PlainNameText(a: string, path: string, query: string)
    ensures S3Url(a, path + query) == S3Url(a, path) + query
  {
  }

  lemma PlainUrlPrinted(a: string, k: string, u: Url)
    requires PlainAuthority(a).Some? && EscapesComplete(k) && u.scheme == "s3" && u.host == a
    requires u.text == S3Url(a, PlainPath(BeforeMark(k))) + QueryPrinted(AfterMark(k))
    ensures NamePrinted(PlainAuthority, a, k, Some(u))
  {
    CompleteBefore(k);
    assert PathPrinted(BeforeMark(k), PlainPath(BeforeMark(k)));
  }

  lemma PlainNamePrinted(a: string, k: string)
    requires '/' !in a
    ensures NamePrinted(PlainAuthority, a, k, ParseName(S3Url(a, k)))
  {
    ParsedName(a, k);
    if ParseName(S3Url(a, k)).Some? {
      PlainNameText(a, PlainPath(BeforeMark(k)), QueryPrinted(AfterMark(k)));
      PlainUrlPrinted(a, k, ParseName(S3Url(a, k)).value);
    }
  }

  lemma PlainKeyKept(k: string)
    requires EscapesComplete(k)
    ensures var key := PlainPath(BeforeMark(k)) + QueryPrinted(AfterMark(k));
            KeptKey(key) && PlainPath(BeforeMark(key)) + QueryPrinted(AfterMark(key)) == key
  {
    CompleteBefore(k);
    var path, query := PlainPath(BeforeMark(k)), QueryPrinted(AfterMark(k));
    assert Free(path, IsMark);
    BeforeMarkOf(path, query);
    assert BeforeMark(path + query) == path + "" == path;
  }

  lemma PlainReprinted(text: string)
    requires ParseName(text).Some?
    ensures var u := ParseName(text).value; Reprinted(u, ParseName(TrimSpace(u.text)))
  {
    var (a, k) := Cut(text[5..], "/").value;
    var key := PlainPath(BeforeMark(k)) + QueryPrinted(AfterMark(k));
    PlainKeyKept(k);
    KeptIsComplete(key);
    KeptIsTrimmed(a, key);
    TrimOfTrimmed(S3Url(a, key), IsSpace);
    assert '/' !in a;
    ParsedName(a, key);
  }

  /** The assumption about parsing and printing contradicts nothing. */
  lemma PrintsIsPossible(parse: string -> Option<Url>)
    requires forall text :: parse(text) == ParseName(text)
    ensures Prints(parse, PlainAuthority)
  {
    forall a, k | '/' !in a
      ensures NamePrinted(PlainAuthority, a, k, parse(S3Url(a, k)))
    {
      PlainNamePrinted(a, k);
    }
    forall text | parse(text).Some? && Verbatim(parse(text).value)
      ensures Reprinted(parse(text).value, parse(TrimSpace(parse(text).value.text)))
    {
      PlainReprinted(text);
    }
  }
}
