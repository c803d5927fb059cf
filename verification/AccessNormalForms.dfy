/**
 Parsing and printing of access resources agree: every spelling of a scope has one normal
 form, the normal form reads back as the same scope, and normalising twice is normalising
 once. What reads texts is for texts without `%`, `?` and `#`; what reads the path of a URL
 claim is for every path.
 */
module AccessNormalForms {
  import opened Basics
  import opened Strings
  import opened AccessResources

  predicate IsEscape(c: char) {
    c == '%' || c == '?' || c == '#'
  }

  ghost predicate Plain(s: string) {
    Free(s, IsEscape)
  }

  predicate OneSlash(s: string) {
    s != "" && s[0] == '/' && (|s| == 1 || s[1] != '/')
  }

  /**
   What is assumed of `url.Parse(s).Path` (section 3.3 of RFC 3986): without `%`, `?` and `#`
   there is nothing to decode or cut off, and a text with one leading slash is all path.
   */
  ghost predicate KeepsPlain(url: UrlPath) {
    forall s :: Plain(s) && url(s).Some? ==> Plain(url(s).value) && (OneSlash(s) ==> url(s).value == s)
  }

  /** One segment, trimmed. */
  ghost predicate Clean(s: string) {
    s != "" && Trimmed(s, IsSpace) && '/' !in s
  }

  /** An organization or project name without surprises. */
  ghost predicate Name(s: string) {
    Clean(s) && Plain(s)
  }

  ghost predicate Slashes(s: string) {
    s != "" && All(s, IsSlash)
  }

  /**
   The scopes that parsing can produce. The second form is the one oddity of the parser:
   `/organization//` is left alone and read as the organization `/`.
   */
  ghost predicate Proper(s: Scope) {
    || (Name(s.0) && (s.1 == "" || Name(s.1)))
    || (Slashes(s.0) && s.1 == "")
  }

  function Print(s: Scope): string {
    if s.1 == "" then OrgPath(s.0) else ProjectPath(s.0, s.1)
  }

  // ---------- segments ----------

  lemma SegmentsSplit(path: string)
    ensures Trim("/" + Trim(path, IsSlash), IsSlash) == Trim(path, IsSlash)
  {
    var m := Trim(path, IsSlash);
    var _, _ := TrimParts(path, IsSlash);
    TrimAround("/", m, "", IsSlash);
    assert "/" + m + "" == "/" + m;
  }

  lemma PlainKept(url: UrlPath, t: string)
    requires KeepsPlain(url) && Plain(t) && OneSlash(t)
    ensures PathOf(url, t) == t
  {
  }

  lemma PieceIsName(piece: string)
    requires '/' !in piece && Plain(piece) && TrimSpace(piece) != ""
    ensures Name(TrimSpace(piece))
  {
    var a, b := TrimParts(piece, IsSpace);
    TrimKeeps(piece, IsSpace, IsEscape);
    TrimKeeps(piece, IsSpace, IsSlash);
  }

  lemma SegmentsArePlain(url: UrlPath, t: string)
    requires KeepsPlain(url) && Plain(t)
    ensures forall i :: 0 <= i < |Segments(url, t)| ==> Plain(Segments(url, t)[i])
  {
    var path := PathOf(url, t);
    TrimKeeps(path, IsSlash, IsEscape);
    TrimKeeps("/" + Trim(path, IsSlash), IsSlash, IsEscape);
    SplitPiecesKeep(Trim("/" + Trim(path, IsSlash), IsSlash), '/', IsEscape);
  }

  /** A slash, a core that begins and ends with another character, and a tail: only the tail is shortened. */
  lemma PathPieces(core: string, tail: string) returns (y: string)
    requires core != "" && Trimmed(core, IsSlash)
    ensures Pieces("/" + core + tail) == Split(core + y, '/')
    ensures y <= tail && (All(tail, IsSlash) ==> y == "")
  {
    SegmentsSplit("/" + core + tail);
    y := TrimTail("/", core, tail, IsSlash);
    if All(tail, IsSlash) {
      TrimAround("/", core, tail, IsSlash);
      assert core + "" == core;
      assert |core + y| == |core| + |y|;
    }
  }

  // ---------- what the segments decide ----------

  lemma ProjectBySegments(url: UrlPath, raw: string)
    requires TrimSpace(raw) != ""
    requires var parts := Segments(url, TrimSpace(raw));
             && |parts| >= 4 && IsOrgAlias(parts[0]) && IsProjectAlias(parts[2])
             && Clean(parts[1]) && Clean(parts[3])
    ensures var parts := Segments(url, TrimSpace(raw));
            NormalizeAccessResource(url, raw) == ProjectPath(parts[1], parts[3])
  {
    TrimOfTrimmed(Segments(url, TrimSpace(raw))[1], IsSpace);
    TrimOfTrimmed(Segments(url, TrimSpace(raw))[3], IsSpace);
  }

  /** The segments after the organization name a project. */
  predicate NamesProject(parts: seq<string>) {
    |parts| >= 4 && IsProjectAlias(parts[2]) && TrimSpace(parts[3]) != ""
  }

  lemma OrgBySegments(url: UrlPath, raw: string)
    requires TrimSpace(raw) != ""
    requires var parts := Segments(url, TrimSpace(raw));
             |parts| >= 2 && IsOrgAlias(parts[0]) && Clean(parts[1]) && !NamesProject(parts)
    ensures NormalizeAccessResource(url, raw) == OrgPath(Segments(url, TrimSpace(raw))[1])
  {
    TrimOfTrimmed(Segments(url, TrimSpace(raw))[1], IsSpace);
  }

  lemma OtherBySegments(url: UrlPath, raw: string)
    requires |Segments(url, TrimSpace(raw))| == 1
    ensures NormalizeAccessResource(url, raw) == TrimSpace(raw)
  {
  }

  /** The words that begin an organization and a project. */
  lemma Aliases(s: string)
    ensures IsOrgAlias(s) <==> s in {"program", "programs", "organization", "organizations"}
    ensures IsProjectAlias(s) <==> s in {"project", "projects"}
  {
  }

  /** The path a text is judged by: that of its URL, or the text itself if it is no URL or has no path. */
  ghost predicate JudgedBy(url: UrlPath, text: string, path: string) {
    match url(text)
    case Some(p) => path == if p == "" then text else p
    case None => path == text
  }

  lemma JudgedSegments(url: UrlPath, text: string, path: string)
    requires JudgedBy(url, text, path)
    ensures Segments(url, text) == Split(Trim(path, IsSlash), '/')
  {
    SegmentsSplit(path);
  }

  /**
   For every URL parser and every text. A text whose path has fewer than two segments, or does
   not begin with an organization's word, is its own normal form once trimmed. A normal form is
   empty if and only if the text is blank, or the segment after such a word is.
   */
  lemma NormalFormCases(url: UrlPath, raw: string, path: string)
    requires JudgedBy(url, TrimSpace(raw), path)
    ensures var parts := Split(Trim(path, IsSlash), '/');
            var named := |parts| >= 2 && parts[0] in {"program", "programs", "organization", "organizations"};
            && (!named ==> NormalizeAccessResource(url, raw) == TrimSpace(raw))
            && (NormalizeAccessResource(url, raw) == "" <==> TrimSpace(raw) == "" || (named && TrimSpace(parts[1]) == ""))
  {
    JudgedSegments(url, TrimSpace(raw), path);
    Aliases(Split(Trim(path, IsSlash), '/')[0]);
  }

  // ---------- every spelling of a project ----------

  /** A path that names a project, in any accepted spelling, with anything after it. */
  function Spelled(orgAlias: string, org: string, projectAlias: string, project: string, tail: string): string {
    "/" + (orgAlias + "/" + org + "/" + projectAlias + "/" + project) + tail
  }

  ghost predicate Tail(x: string) {
    x != "" ==> x[0] == '/'
  }

  lemma SplitFour(a: string, b: string, c: string, d: string, tail: string)
    requires '/' !in a && '/' !in b && '/' !in c && '/' !in d
    requires tail != "" ==> tail[0] == '/'
    ensures var parts := Split(a + "/" + b + "/" + c + "/" + d + tail, '/');
            |parts| >= 4 && parts[0] == a && parts[1] == b && parts[2] == c && parts[3] == d
  {
    var rest3 := d + tail;
    var rest2 := c + "/" + rest3;
    var rest1 := b + "/" + rest2;
    assert a + "/" + b + "/" + c + "/" + d + tail == a + "/" + rest1;
    SplitHead(a, rest1, '/');
    SplitHead(b, rest2, '/');
    SplitHead(c, rest3, '/');
    if tail == "" {
      assert rest3 == d;
      SplitOne(d, '/');
    } else {
      assert rest3 == d + "/" + tail[1..];
      SplitHead(d, tail[1..], '/');
    }
  }

  /** Letters only, as every alias. */
  ghost predicate Bare(s: string) {
    s != "" && '/' !in s && Plain(s) && Free(s, IsSpace)
  }

  lemma AliasIsWord(alias: string)
    requires IsOrgAlias(alias) || IsProjectAlias(alias)
    ensures Bare(alias)
  {
  }

  lemma SpelledTrims(orgAlias: string, org: string, projectAlias: string, project: string, tail: string)
    returns (x: string)
    requires Bare(orgAlias) && Clean(project) && Tail(tail)
    ensures TrimSpace(Spelled(orgAlias, org, projectAlias, project, tail)) ==
            Spelled(orgAlias, org, projectAlias, project, x)
    ensures Tail(x) && x <= tail
  {
    var core := orgAlias + "/" + org + "/" + projectAlias + "/" + project;
    var head := "/" + core;
    assert head[|head| - 1] == project[|project| - 1];
    x := TrimTail("", head, tail, IsSpace);
    assert "" + head + tail == head + tail;
  }

  lemma SpelledPieces(orgAlias: string, org: string, projectAlias: string, project: string, tail: string)
    requires Bare(orgAlias) && Bare(projectAlias) && Clean(org) && Clean(project) && Tail(tail)
    ensures var parts := Pieces(Spelled(orgAlias, org, projectAlias, project, tail));
            |parts| >= 4 && parts[0] == orgAlias && parts[1] == org && parts[2] == projectAlias && parts[3] == project
  {
    var core := orgAlias + "/" + org + "/" + projectAlias + "/" + project;
    assert core[0] == orgAlias[0] && core[|core| - 1] == project[|project| - 1];
    var y := PathPieces(core, tail);
    SplitFour(orgAlias, org, projectAlias, project, y);
  }

  lemma ProjectByPath(url: UrlPath, claim: string, orgAlias: string, org: string,
                      projectAlias: string, project: string, tail: string)
    requires IsOrgAlias(orgAlias) && IsProjectAlias(projectAlias) && Clean(org) && Clean(project) && Tail(tail)
    requires TrimSpace(claim) != "" && PathOf(url, TrimSpace(claim)) == Spelled(orgAlias, org, projectAlias, project, tail)
    ensures NormalizeAccessResource(url, claim) == ProjectPath(org, project)
  {
    AliasIsWord(orgAlias);
    AliasIsWord(projectAlias);
    SpelledPieces(orgAlias, org, projectAlias, project, tail);
    ProjectBySegments(url, claim);
  }

  lemma SpelledPlain(orgAlias: string, org: string, projectAlias: string, project: string, x: string)
    requires Bare(orgAlias) && Bare(projectAlias) && Plain(org) && Plain(project) && Plain(x)
    ensures Plain(Spelled(orgAlias, org, projectAlias, project, x))
    ensures OneSlash(Spelled(orgAlias, org, projectAlias, project, x))
  {
    var core := orgAlias + "/" + org + "/" + projectAlias + "/" + project;
    assert Plain(core) && core[0] == orgAlias[0];
  }

  lemma SpelledNormalizes(url: UrlPath, orgAlias: string, org: string, projectAlias: string, project: string, tail: string)
    requires KeepsPlain(url) && IsOrgAlias(orgAlias) && IsProjectAlias(projectAlias)
    requires Name(org) && Name(project) && Tail(tail) && Plain(tail)
    ensures NormalizeAccessResource(url, Spelled(orgAlias, org, projectAlias, project, tail)) == ProjectPath(org, project)
  {
    AliasIsWord(orgAlias);
    AliasIsWord(projectAlias);
    var raw := Spelled(orgAlias, org, projectAlias, project, tail);
    var x := SpelledTrims(orgAlias, org, projectAlias, project, tail);
    SpelledPlain(orgAlias, org, projectAlias, project, x);
    PlainKept(url, TrimSpace(raw));
    ProjectByPath(url, raw, orgAlias, org, projectAlias, project, x);
  }

  // ---------- every spelling of an organization ----------

  /** A path that names an organization, with anything after it. */
  function SpelledOrg(orgAlias: string, org: string, tail: string): string {
    "/" + (orgAlias + "/" + org) + tail
  }

  /** What follows the organization names no project. */
  predicate NoProject(tail: string) {
    var parts := Split(tail, '/');
    |parts| < 3 || !IsProjectAlias(parts[1]) || TrimSpace(parts[2]) == ""
  }

  lemma {:induction false} SplitPrefix(y: string, x: string)
    requires y <= x
    ensures var a, b := Split(y, '/'), Split(x, '/');
            |a| <= |b| && a[|a| - 1] <= b[|a| - 1] && forall i :: 0 <= i < |a| - 1 ==> a[i] == b[i]
  {
    if y != "" {
      var a, b := Split(y[1..], '/'), Split(x[1..], '/');
      SplitPrefix(y[1..], x[1..]);
      if y[0] == '/' {
        assert Split(y, '/') == [""] + a && Split(x, '/') == [""] + b;
      } else {
        assert Split(y, '/') == [[y[0]] + a[0]] + a[1..] && Split(x, '/') == [[x[0]] + b[0]] + b[1..];
      }
    }
  }

  lemma BlankPrefix(a: string, b: string)
    requires a <= b && TrimSpace(b) == ""
    ensures TrimSpace(a) == ""
  {
    var l, r := TrimParts(b, IsSpace);
    assert b == l + r;
    TrimAround(a, "", "", IsSpace);
    assert a + "" + "" == a;
  }

  lemma NoProjectPrefix(y: string, x: string)
    requires y <= x && NoProject(x)
    ensures NoProject(y)
  {
    SplitPrefix(y, x);
    var a, b := Split(y, '/'), Split(x, '/');
    if |a| >= 3 && TrimSpace(b[2]) == "" {
      assert a[2] <= b[2];
      BlankPrefix(a[2], b[2]);
    }
  }

  lemma TailSplits(tail: string)
    requires tail != "" && tail[0] == '/'
    ensures Split(tail, '/') == [""] + Split(tail[1..], '/')
  {
  }

  /** A last segment and what follows it. */
  lemma SplitLast(b: string, tail: string)
    requires '/' !in b && Tail(tail)
    ensures Split(b + tail, '/') == [b] + Split(tail, '/')[1..]
  {
    if tail == "" {
      assert b + tail == b;
      SplitOne(b, '/');
      SplitOne(tail, '/');
    } else {
      var after := tail[1..];
      assert b + tail == b + "/" + after;
      SplitHead(b, after, '/');
      TailSplits(tail);
      assert ([""] + Split(after, '/'))[1..] == Split(after, '/');
    }
  }

  lemma SplitTwo(a: string, b: string, tail: string)
    requires '/' !in a && '/' !in b && Tail(tail)
    ensures Split(a + "/" + b + tail, '/') == [a, b] + Split(tail, '/')[1..]
  {
    assert a + "/" + b + tail == a + "/" + (b + tail);
    SplitHead(a, b + tail, '/');
    SplitLast(b, tail);
  }

  lemma SpelledOrgPieces(orgAlias: string, org: string, tail: string)
    requires Bare(orgAlias) && Clean(org) && Tail(tail) && NoProject(tail)
    ensures var parts := Pieces(SpelledOrg(orgAlias, org, tail));
            |parts| >= 2 && parts[0] == orgAlias && parts[1] == org && !NamesProject(parts)
  {
    var core := orgAlias + "/" + org;
    assert core[0] == orgAlias[0] && core[|core| - 1] == org[|org| - 1];
    var y := PathPieces(core, tail);
    SplitTwo(orgAlias, org, y);
    NoProjectPrefix(y, tail);
  }

  lemma OrgByPath(url: UrlPath, claim: string, orgAlias: string, org: string, tail: string)
    requires IsOrgAlias(orgAlias) && Clean(org) && Tail(tail) && NoProject(tail)
    requires TrimSpace(claim) != "" && PathOf(url, TrimSpace(claim)) == SpelledOrg(orgAlias, org, tail)
    ensures NormalizeAccessResource(url, claim) == OrgPath(org)
  {
    AliasIsWord(orgAlias);
    SpelledOrgPieces(orgAlias, org, tail);
    OrgBySegments(url, claim);
  }

  lemma SpelledOrgPlain(orgAlias: string, org: string, x: string)
    requires Bare(orgAlias) && Plain(org) && Plain(x)
    ensures Plain(SpelledOrg(orgAlias, org, x)) && OneSlash(SpelledOrg(orgAlias, org, x))
  {
    var core := orgAlias + "/" + org;
    assert Plain(core) && core[0] == orgAlias[0];
  }

  lemma OrgNormalizes(url: UrlPath, orgAlias: string, org: string, tail: string)
    requires KeepsPlain(url) && IsOrgAlias(orgAlias) && Name(org)
    requires Tail(tail) && Plain(tail) && NoProject(tail)
    ensures NormalizeAccessResource(url, SpelledOrg(orgAlias, org, tail)) == OrgPath(org)
  {
    AliasIsWord(orgAlias);
    var head := "/" + (orgAlias + "/" + org);
    var raw := SpelledOrg(orgAlias, org, tail);
    assert head[|head| - 1] == org[|org| - 1];
    var x := TrimTail("", head, tail, IsSpace);
    assert "" + head + tail == raw && TrimSpace(raw) == SpelledOrg(orgAlias, org, x);
    SpelledOrgPlain(orgAlias, org, x);
    PlainKept(url, TrimSpace(raw));
    NoProjectPrefix(x, tail);
    OrgByPath(url, raw, orgAlias, org, x);
  }

  // ---------- claims ----------

  /** A claim whose URL has a path that names a project, in any spelling and with anything after it. */
  lemma ProjectClaimNormalizes(url: UrlPath, claim: string, orgAlias: string, org: string,
                               projectAlias: string, project: string, tail: string)
    requires orgAlias in {"program", "programs", "organization", "organizations"}
    requires projectAlias in {"project", "projects"}
    requires Clean(org) && Clean(project) && Tail(tail) && TrimSpace(claim) != ""
    requires url(TrimSpace(claim)) == Some("/" + (orgAlias + "/" + org + "/" + projectAlias + "/" + project) + tail)
    ensures NormalizeAccessResource(url, claim) == "/organization/" + org + "/project/" + project
  {
    Aliases(orgAlias);
    Aliases(projectAlias);
    ProjectByPath(url, claim, orgAlias, org, projectAlias, project, tail);
  }

  /** A claim whose URL has a path that names an organization and no project. */
  lemma OrgClaimNormalizes(url: UrlPath, claim: string, orgAlias: string, org: string, tail: string)
    requires orgAlias in {"program", "programs", "organization", "organizations"}
    requires Clean(org) && Tail(tail) && NoProject(tail) && TrimSpace(claim) != ""
    requires url(TrimSpace(claim)) == Some("/" + (orgAlias + "/" + org) + tail)
    ensures NormalizeAccessResource(url, claim) == "/organization/" + org
  {
    Aliases(orgAlias);
    OrgByPath(url, claim, orgAlias, org, tail);
  }

  // ---------- the oddity ----------

  lemma SlashesStay(url: UrlPath, word: string, slashes: string)
    requires KeepsPlain(url) && Bare(word) && All(slashes, IsSlash) && slashes != ""
    ensures NormalizeAccessResource(url, "/" + word + slashes) == "/" + word + slashes
  {
    var raw := "/" + word + slashes;
    assert !IsSpace('/');
    assert raw[|raw| - 1] == slashes[|slashes| - 1];
    TrimOfTrimmed(raw, IsSpace);
    assert raw[1] == word[0];
    PlainKept(url, raw);
    var y := PathPieces(word, slashes);
    assert word + "" == word;
    SplitOne(word, '/');
    OtherBySegments(url, raw);
  }

  // ---------- reading the normal form ----------

  /** `/organization/` is the spelling with the alias `organization`. */
  lemma PathSpellings(org: string, project: string)
    ensures OrgPath(org) == SpelledOrg("organization", org, "")
    ensures ProjectPath(org, project) == Spelled("organization", org, "project", project, "")
    ensures OrgPath(org) == "/" + "organization" + ("/" + org)
    ensures IsOrgAlias("organization") && IsProjectAlias("project")
  {
  }

  lemma ParseByNormal(url: UrlPath, raw: string, rest: string)
    requires NormalizeAccessResource(url, raw) == ORGANIZATION + rest
    ensures ParseResourcePath(url, raw) ==
            match Cut(rest, PROJECT)
            case None => (TrimSpace(rest), "")
            case Some((org, project)) => (TrimSpace(org), TrimSpace(project))
  {
    assert (ORGANIZATION + rest)[|ORGANIZATION|..] == rest;
  }

  lemma OrgHasNoProject(org: string)
    requires '/' !in org || All(org, IsSlash)
    ensures Cut(org, PROJECT) == None
  {
    if '/' !in org {
      CutAbsent(org, PROJECT, 0);
    } else {
      assert 'p' !in org;
      CutAbsent(org, PROJECT, 1);
    }
  }

  lemma ReadsBack(url: UrlPath, raw: string, s: Scope)
    requires Proper(s) && NormalizeAccessResource(url, raw) == Print(s)
    ensures ParseResourcePath(url, raw) == s
  {
    TrimOfTrimmed(s.0, IsSpace);
    if s.1 == "" {
      ParseByNormal(url, raw, s.0);
      OrgHasNoProject(s.0);
    } else {
      assert ProjectPath(s.0, s.1) == ORGANIZATION + (s.0 + PROJECT + s.1);
      ParseByNormal(url, raw, s.0 + PROJECT + s.1);
      CutAtFirst(s.0, PROJECT, s.1);
      TrimOfTrimmed(s.1, IsSpace);
    }
  }

  lemma PrintNormalizes(url: UrlPath, s: Scope)
    requires KeepsPlain(url) && Proper(s)
    ensures NormalizeAccessResource(url, Print(s)) == Print(s)
  {
    PathSpellings(s.0, s.1);
    if Slashes(s.0) {
      AliasIsWord("organization");
      SlashesStay(url, "organization", "/" + s.0);
    } else if s.1 == "" {
      OrgNormalizes(url, "organization", s.0, "");
    } else {
      SpelledNormalizes(url, "organization", s.0, "project", s.1, "");
    }
  }

  lemma PrintParses(url: UrlPath, s: Scope)
    requires KeepsPlain(url) && Proper(s)
    ensures NormalizeAccessResource(url, Print(s)) == Print(s)
    ensures ParseResourcePath(url, Print(s)) == s
  {
    PrintNormalizes(url, s);
    ReadsBack(url, Print(s), s);
  }

  /** Two scopes with one printed form are one scope, even when a name is itself `project`. */
  lemma PrintInjective(url: UrlPath, s: Scope, t: Scope)
    requires KeepsPlain(url) && Proper(s) && Proper(t) && Print(s) == Print(t)
    ensures s == t
  {
    PrintParses(url, s);
    PrintParses(url, t);
  }

  // ---------- every input ----------

  /** A word, a slash and something other than slashes: at least two segments. */
  lemma TwoPieces(word: string, rest: string)
    requires word != "" && '/' !in word && !All(rest, IsSlash)
    ensures var parts := Pieces("/" + word + ("/" + rest)); |parts| >= 2 && parts[0] == word
  {
    var core := Trim(rest, IsSlash);
    var a, b := TrimParts(rest, IsSlash);
    assert core == "" ==> rest == a + b;
    var body := word + "/" + (a + core);
    assert "/" + word + ("/" + rest) == "/" + body + b;
    assert body[0] == word[0] && body[|body| - 1] == core[|core| - 1];
    var y := PathPieces(body, b);
    assert body + "" == body;
    SplitHead(word, a + core, '/');
  }

  /** A text left alone although it begins like a resource has nothing but slashes after the beginning. */
  lemma UntouchedIsSlashes(url: UrlPath, t: string)
    requires KeepsPlain(url) && Plain(t) && ORGANIZATION <= t
    requires |Segments(url, t)| < 2 || !IsOrgAlias(Segments(url, t)[0])
    ensures All(t[|ORGANIZATION|..], IsSlash)
  {
    var rest := t[|ORGANIZATION|..];
    assert t == OrgPath(rest);
    PathSpellings(rest, "");
    if !All(rest, IsSlash) {
      AliasIsWord("organization");
      PlainKept(url, t);
      TwoPieces("organization", rest);
    }
  }

  /**
   The scope of any plain text is proper, and the text's normal form is exactly how that
   scope is printed; a text without a scope is left alone or dropped.
   */
  lemma ScopeIsProper(url: UrlPath, raw: string)
    requires KeepsPlain(url) && Plain(raw)
    ensures var s := ParseResourcePath(url, raw);
            var normal := NormalizeAccessResource(url, raw);
            if s.0 == "" then s.1 == "" && (normal == "" || normal == TrimSpace(raw))
            else Proper(s) && normal == Print(s)
  {
    var t := TrimSpace(raw);
    var normal := NormalizeAccessResource(url, raw);
    var _, _ := TrimParts(raw, IsSpace);
    TrimKeeps(raw, IsSpace, IsEscape);
    if t != "" {
      var parts := Segments(url, t);
      SegmentsArePlain(url, t);
      if |parts| >= 2 && IsOrgAlias(parts[0]) {
        var org := TrimSpace(parts[1]);
        if org != "" {
          PieceIsName(parts[1]);
          var s: Scope := (org, "");
          if |parts| >= 4 && IsProjectAlias(parts[2]) && TrimSpace(parts[3]) != "" {
            PieceIsName(parts[3]);
            s := (org, TrimSpace(parts[3]));
          }
          assert Proper(s) && normal == Print(s);
          ReadsBack(url, raw, s);
        }
      } else if ORGANIZATION <= t {
        UntouchedIsSlashes(url, t);
        var rest := t[|ORGANIZATION|..];
        assert t == ORGANIZATION + rest;
        ParseByNormal(url, raw, rest);
        CutAbsent(rest, PROJECT, 1);
        TrimOfTrimmed(rest, IsSpace);
      }
    }
  }

  lemma NormalizeTrimmed(url: UrlPath, raw: string)
    ensures NormalizeAccessResource(url, TrimSpace(raw)) == NormalizeAccessResource(url, raw)
    ensures ParseResourcePath(url, TrimSpace(raw)) == ParseResourcePath(url, raw)
  {
    TrimIdempotent(raw, IsSpace);
  }

  lemma EmptyNormalizes(url: UrlPath, raw: string)
    requires raw == ""
    ensures NormalizeAccessResource(url, raw) == "" && ParseResourcePath(url, raw) == ("", "")
  {
    TrimOfTrimmed(raw, IsSpace);
  }

  lemma ParseNeedsPrefix(url: UrlPath, raw: string)
    requires NormalizeAccessResource(url, raw) == ""
    ensures ParseResourcePath(url, raw) == ("", "")
  {
  }

  lemma PrintIsPlain(s: Scope)
    requires Plain(s.0) && Plain(s.1)
    ensures Plain(Print(s))
  {
    assert Plain(ORGANIZATION) && Plain(PROJECT);
  }

  /** Normalising a second time changes nothing, neither the text nor its scope. */
  lemma NormalizeIdempotent(url: UrlPath, raw: string)
    requires KeepsPlain(url) && Plain(raw)
    ensures var normal := NormalizeAccessResource(url, raw);
            && NormalizeAccessResource(url, normal) == normal
            && ParseResourcePath(url, normal) == ParseResourcePath(url, raw)
            && Plain(normal)
  {
    var s := ParseResourcePath(url, raw);
    var normal := NormalizeAccessResource(url, raw);
    ScopeIsProper(url, raw);
    if s.0 != "" {
      PrintParses(url, s);
      assert Slashes(s.0) ==> Plain(s.0);
      PrintIsPlain(s);
    } else if normal == "" {
      EmptyNormalizes(url, normal);
      ParseNeedsPrefix(url, raw);
    } else {
      NormalizeTrimmed(url, raw);
      TrimKeeps(raw, IsSpace, IsEscape);
    }
  }

  /**
   Printing a scope and reading it back, in every accepted spelling and with any further
   segments, gives the same organization and project.
   */
  lemma ScopeRoundTrip(url: UrlPath, org: string, project: string,
                       orgAlias: string, projectAlias: string, tail: string)
    requires KeepsPlain(url) && Name(org) && Name(project)
    requires orgAlias in {"program", "programs", "organization", "organizations"}
    requires projectAlias in {"project", "projects"} && Tail(tail) && Plain(tail)
    ensures ResourcePath(org, project) == Ok(ProjectPath(org, project))
    ensures ResourceScope(url, ResourcePath(org, project).value) == (org, project, true)
    ensures ResourceScope(url, Spelled(orgAlias, org, projectAlias, project, tail)) == (org, project, true)
    ensures ResourcePath(org, "") == Ok(OrgPath(org))
    ensures NoProject(tail) ==> ResourceScope(url, SpelledOrg(orgAlias, org, tail)) == (org, "", true)
  {
    TrimOfTrimmed(org, IsSpace);
    TrimOfTrimmed(project, IsSpace);
    TrimOfTrimmed("", IsSpace);
    Aliases(orgAlias);
    Aliases(projectAlias);
    PrintParses(url, (org, project));
    SpelledNormalizes(url, orgAlias, org, projectAlias, project, tail);
    ReadsBack(url, Spelled(orgAlias, org, projectAlias, project, tail), (org, project));
    if NoProject(tail) {
      OrgNormalizes(url, orgAlias, org, tail);
      ReadsBack(url, SpelledOrg(orgAlias, org, tail), (org, ""));
    }
  }

  /** A scope is reported if and only if the normal form is how some scope is printed, and then it is that scope. */
  lemma ScopeReported(url: UrlPath, raw: string)
    requires KeepsPlain(url) && Plain(raw)
    ensures var (org, project, found) := ResourceScope(url, raw);
            && (found <==> exists s :: Proper(s) && NormalizeAccessResource(url, raw) == Print(s))
            && (if found then NormalizeAccessResource(url, raw) == Print((org, project)) else org == "" && project == "")
  {
    ScopeIsProper(url, raw);
    forall s | Proper(s) && NormalizeAccessResource(url, raw) == Print(s)
      ensures ParseResourcePath(url, raw) == s && s.0 != ""
    {
      ReadsBack(url, raw, s);
    }
  }

  /** A path is refused exactly for a project without an organization, and empty exactly for neither. */
  lemma ResourcePathCases(org: string, project: string)
    ensures var o, p := TrimSpace(org), TrimSpace(project);
            && (ResourcePath(org, project).Err? <==> o == "" && p != "")
            && (ResourcePath(org, project) == Ok("") <==> o == "" && p == "")
            && (o != "" && p == "" ==> ResourcePath(org, project) == Ok("/organization/" + o))
            && (o != "" && p != "" ==> ResourcePath(org, project) == Ok("/organization/" + o + "/project/" + p))
  {
  }

  /** A scope without an organization gives no entry, whatever the project. */
  lemma NoOrgNoEntry(org: string, project: string)
    ensures AuthzMapFromScope(org, project) == map[] <==> TrimSpace(org) == ""
  {
    var m := AuthzMapFromScope(org, project);
    assert TrimSpace(org) != "" ==> TrimSpace(org) in m;
  }
}
