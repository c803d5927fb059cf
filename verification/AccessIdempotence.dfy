/**
 When normalising an access resource twice is normalising it once, for every text. Normal
 forms are put together from decoded names, and are decoded again when they are normalised
 again; so the law can fail for names with `%`, `?` or `#`, and the condition is exact.
 */
module AccessIdempotence {
  import opened Basics
  import opened Strings
  import opened UrlText
  import opened AccessResources
  import opened AccessNormalForms

  /**
   What is assumed of `url.Parse(t).Path` for a text with one leading slash (sections 3.3 to
   3.5 of RFC 3986): it is the part before any query or fragment, decoded.
   */
  ghost predicate DecodesPaths(url: UrlPath) {
    forall t :: OneSlash(t) && url(t).Some? ==> Decodes(BeforeMark(t), url(t).value)
  }

  /** The text names an organization, so it is put together anew. */
  predicate Rewritten(url: UrlPath, raw: string) {
    TrimSpace(raw) != "" && var parts := Segments(url, TrimSpace(raw)); |parts| >= 2 && IsOrgAlias(parts[0])
  }

  ghost predicate CleanScope(s: Scope) {
    Clean(s.0) && (s.1 == "" || Clean(s.1))
  }

  lemma PieceIsClean(piece: string)
    requires '/' !in piece && TrimSpace(piece) != ""
    ensures Clean(TrimSpace(piece))
  {
    var _, _ := TrimParts(piece, IsSpace);
    TrimKeeps(piece, IsSpace, IsSlash);
  }

  lemma RewrittenShape(url: UrlPath, raw: string) returns (s: Scope)
    requires Rewritten(url, raw) && NormalizeAccessResource(url, raw) != ""
    ensures CleanScope(s) && NormalizeAccessResource(url, raw) == Print(s)
  {
    var parts := Segments(url, TrimSpace(raw));
    PieceIsClean(parts[1]);
    s := (TrimSpace(parts[1]), "");
    if NamesProject(parts) {
      PieceIsClean(parts[3]);
      s := (TrimSpace(parts[1]), TrimSpace(parts[3]));
    }
  }

  /** A text that is not put together anew is only trimmed, and stays. */
  lemma UntouchedStays(url: UrlPath, raw: string)
    requires !Rewritten(url, raw)
    ensures NormalizeAccessResource(url, raw) == TrimSpace(raw)
    ensures NormalizeAccessResource(url, TrimSpace(raw)) == TrimSpace(raw)
  {
    NormalizeTrimmed(url, raw);
  }

  // ---------- by segments, whatever the URL parser does ----------

  lemma CleanPrintCuts(s: Scope)
    requires CleanScope(s)
    ensures ORGANIZATION <= Print(s)
    ensures Cut(Print(s)[|ORGANIZATION|..], PROJECT) == if s.1 == "" then None else Some(s)
  {
    var rest := Print(s)[|ORGANIZATION|..];
    if s.1 == "" {
      assert rest == s.0;
      CutAbsent(s.0, PROJECT, 0);
    } else {
      assert rest == s.0 + PROJECT + s.1;
      CutAtFirst(s.0, PROJECT, s.1);
    }
  }

  lemma CleanPrintInjective(s: Scope, t: Scope)
    requires CleanScope(s) && CleanScope(t) && Print(s) == Print(t)
    ensures s == t
  {
    CleanPrintCuts(s);
    CleanPrintCuts(t);
  }

  /** The scope that the segments of a rewritten text name. */
  function ScopeIn(parts: seq<string>): Scope
    requires |parts| >= 2
  {
    (TrimSpace(parts[1]), if NamesProject(parts) then TrimSpace(parts[3]) else "")
  }

  lemma PrintTrimmed(s: Scope)
    requires CleanScope(s)
    ensures TrimSpace(Print(s)) == Print(s) != ""
  {
    var n := Print(s);
    assert n[|n| - 1] == if s.1 == "" then s.0[|s.0| - 1] else s.1[|s.1| - 1];
    TrimOfTrimmed(n, IsSpace);
  }

  /**
   For every URL parser: a normal form that was put together stays if and only if it has
   fewer than two segments, or begins with no alias, or names the same scope again.
   */
  lemma StaysBySegments(url: UrlPath, s: Scope)
    requires CleanScope(s)
    ensures var parts := Segments(url, Print(s));
            NormalizeAccessResource(url, Print(s)) == Print(s)
            <==> |parts| < 2 || !IsOrgAlias(parts[0]) || ScopeIn(parts) == s
  {
    PrintTrimmed(s);
    if Rewritten(url, Print(s)) && NormalizeAccessResource(url, Print(s)) != "" {
      var parts := Segments(url, Print(s));
      var t := RewrittenShape(url, Print(s));
      PieceIsClean(parts[1]);
      if NamesProject(parts) {
        PieceIsClean(parts[3]);
      }
      assert NormalizeAccessResource(url, Print(s)) == Print(ScopeIn(parts));
      if Print(ScopeIn(parts)) == Print(s) {
        CleanPrintInjective(ScopeIn(parts), s);
      }
    }
  }

  // ---------- by characters ----------

  lemma PiecesLength(s: string)
    ensures var parts := Split(s, '/');
            && (|parts| >= 2 ==> |s| >= |parts[0]| + |parts[1]| + 1)
            && (|parts| >= 4 ==> |s| >= |parts[0]| + |parts[1]| + |parts[2]| + |parts[3]| + 3)
  {
    var parts := Split(s, '/');
    JoinSplit(s, '/');
    if |parts| >= 4 {
      var one, two, three := parts[1..], parts[1..][1..], parts[1..][1..][1..];
      assert |Join(three, '/')| >= |three[0]|;
      assert Join(two, '/') == parts[2] + "/" + Join(three, '/');
      assert Join(one, '/') == parts[1] + "/" + Join(two, '/');
    } else if |parts| >= 2 {
      assert |Join(parts[1..], '/')| >= |parts[1]|;
    }
  }

  /** Reading a path never makes it longer. */
  lemma NotLonger(url: UrlPath, raw: string, path: string)
    requires TrimSpace(raw) != "" && PathOf(url, TrimSpace(raw)) == path && path[..1] == "/"
    requires var parts := Pieces(path); |parts| >= 2 && parts[0] == "organization"
    ensures |NormalizeAccessResource(url, raw)| <= |path|
  {
    var core := Trim(path, IsSlash);
    var parts := Pieces(path);
    SegmentsSplit(path);
    var a, b := TrimParts(path, IsSlash);
    PiecesLength(core);
    TrimNotLonger(parts[1], IsSpace);
    if |parts| >= 4 {
      TrimNotLonger(parts[3], IsSpace);
    }
  }

  /** A normal form that is read as it stands stays. */
  lemma ReadAsItStands(url: UrlPath, s: Scope)
    requires CleanScope(s) && PathOf(url, Print(s)) == Print(s)
    ensures NormalizeAccessResource(url, Print(s)) == Print(s)
  {
    PrintTrimmed(s);
    PathSpellings(s.0, s.1);
    if s.1 == "" {
      SplitOne("", '/');
      OrgByPath(url, Print(s), "organization", s.0, "");
    } else {
      ProjectByPath(url, Print(s), "organization", s.0, "project", s.1, "");
    }
  }

  lemma WordPieces(word: string, rest: string)
    requires word != "" && '/' !in word
    ensures var parts := Pieces("/" + word + ("/" + rest));
            if All(rest, IsSlash) then |parts| == 1 else |parts| >= 2 && parts[0] == word
  {
    if All(rest, IsSlash) {
      var y := PathPieces(word, "/" + rest);
      assert word + "" == word;
      SplitOne(word, '/');
    } else {
      TwoPieces(word, rest);
    }
  }

  lemma OrgPathPieces(rest: string)
    ensures var parts := Pieces(OrgPath(rest));
            if All(rest, IsSlash) then |parts| == 1 else |parts| >= 2 && parts[0] == "organization"
  {
    PathSpellings(rest, "");
    WordPieces("organization", rest);
  }

  /** One that is read as something shorter stays only if nothing but slashes is left of its names. */
  lemma ReadAsOther(url: UrlPath, s: Scope, rest: string)
    requires CleanScope(s) && PathOf(url, Print(s)) == OrgPath(rest) && |OrgPath(rest)| < |Print(s)|
    ensures NormalizeAccessResource(url, Print(s)) == Print(s) <==> All(rest, IsSlash)
  {
    PrintTrimmed(s);
    OrgPathPieces(rest);
    if All(rest, IsSlash) {
      OtherBySegments(url, Print(s));
    } else {
      assert OrgPath(rest)[..1] == "/";
      NotLonger(url, Print(s), OrgPath(rest));
    }
  }

  lemma PlainByMarks(t: string)
    ensures Plain(t) <==> '%' !in BeforeMark(t) && BeforeMark(t) == t
  {
    if Plain(t) {
      NoMark(t);
    } else {
      var i :| 0 <= i < |t| && IsEscape(t[i]);
    }
  }

  /** The only texts that decode to themselves are those without escapes and marks. */
  lemma DecodedShorter(t: string, before: string, path: string)
    requires before <= t && Decodes(before, path)
    ensures if '%' !in before && before == t then path == t else |path| < |t|
  {
    DecodesShorter(before, path);
  }

  /** What is left after `/organization/` once the URL parser decoded a text. */
  lemma DecodedRest(rest: string, path: string) returns (left: string)
    requires Decodes(BeforeMark(OrgPath(rest)), path)
    ensures path == OrgPath(left)
    ensures All(left, IsSlash) <==> SlashSpelled(BeforeMark(rest))
  {
    BeforeMarkOf(ORGANIZATION, rest);
    DecodesHead(ORGANIZATION, BeforeMark(rest), path);
    left := path[|ORGANIZATION|..];
    DecodesSlashes(BeforeMark(rest), left);
  }

  /**
   A normal form that was put together stays if and only if the URL parser refuses it, or it
   has no `%`, `?` or `#`, or all that is left of its names before any `?` or `#` are slashes.
   */
  lemma StaysByCharacters(url: UrlPath, s: Scope)
    requires DecodesPaths(url) && CleanScope(s)
    ensures NormalizeAccessResource(url, Print(s)) == Print(s)
            <==> url(Print(s)).None? || Plain(Print(s)) || SlashSpelled(BeforeMark(Print(s)[|ORGANIZATION|..]))
  {
    var n := Print(s);
    var rest := n[|ORGANIZATION|..];
    CleanPrintCuts(s);
    if url(n).None? {
      ReadAsItStands(url, s);
    } else {
      assert n == OrgPath(rest) && OneSlash(n);
      var path := url(n).value;
      PlainByMarks(n);
      DecodedShorter(n, BeforeMark(n), path);
      if Plain(n) {
        ReadAsItStands(url, s);
      } else {
        var left := DecodedRest(rest, path);
        ReadAsOther(url, s, left);
      }
    }
  }

  /**
   Normalising any text twice is normalising it once if and only if the text is not put
   together anew, or its normal form is empty, or one of the three exceptions above applies.
   */
  lemma IdempotentExactly(url: UrlPath, raw: string)
    requires DecodesPaths(url)
    ensures var n := NormalizeAccessResource(url, raw);
            NormalizeAccessResource(url, n) == n
            <==> || !Rewritten(url, raw) || n == "" || url(n).None? || Plain(n)
                 || (ORGANIZATION <= n && SlashSpelled(BeforeMark(n[|ORGANIZATION|..])))
  {
    if !Rewritten(url, raw) {
      UntouchedStays(url, raw);
    } else if NormalizeAccessResource(url, raw) == "" {
      EmptyNormalizes(url, "");
    } else {
      var s := RewrittenShape(url, raw);
      StaysByCharacters(url, s);
      CleanPrintCuts(s);
    }
  }

  lemma EscapedLetter(org: string)
    requires org == "a%41"
    ensures CleanScope((org, "")) && !Plain(OrgPath(org)) && !SlashSpelled(BeforeMark(OrgPath(org)[|ORGANIZATION|..]))
  {
    assert OrgPath(org)[|ORGANIZATION|..] == org;
    assert OrgPath(org)[|ORGANIZATION| + 1] == '%';
  }

  /** An input at which the law fails: `%2541` becomes `%41`, and that becomes `A`. */
  lemma NormalizeDecodesTwice(url: UrlPath, raw: string, org: string)
    requires DecodesPaths(url) && org == "a%41" && TrimSpace(raw) == OrgPath("a%2541")
    requires url(TrimSpace(raw)) == Some(OrgPath(org)) && url(OrgPath(org)).Some?
    ensures var n := NormalizeAccessResource(url, raw); NormalizeAccessResource(url, n) != n
  {
    EscapedLetter(org);
    PathSpellings(org, "");
    SplitOne("", '/');
    OrgByPath(url, raw, "organization", org, "");
    StaysByCharacters(url, (org, ""));
  }
}
