/**
 Access resources of client/access/resources.go: path aliases and URL claims are brought to
 the form `/organization/<org>[/project/<project>]`, and lists of such paths are turned into
 org-to-projects maps and back.

 `url.Parse(s).Path` is a parameter: `None` where parsing fails. A nil map or slice of the
 source is the empty one here. Go visits a map in any order, so a loop over a map picks the
 next key arbitrarily, and the results about it hold for all orders.
 */
module AccessResources {
  import opened Basics
  import opened Strings

  type UrlPath = string -> Option<string>

  const ORGANIZATION := "/organization/"
  const PROJECT := "/project/"

  predicate IsOrgAlias(s: string) {
    s == "program" || s == "programs" || s == "organization" || s == "organizations"
  }

  predicate IsProjectAlias(s: string) {
    s == "project" || s == "projects"
  }

  function OrgPath(org: string): string {
    ORGANIZATION + org
  }

  function ProjectPath(org: string, project: string): string {
    ORGANIZATION + org + PROJECT + project
  }

  function ResourcePath(org: string, project: string): Result<string, string> {
    var o, p := TrimSpace(org), TrimSpace(project);
    if o == "" && p == "" then Ok("")
    else if o == "" then Err("organization required when project is specified")
    else if p == "" then Ok(OrgPath(o))
    else Ok(ProjectPath(o, p))
  }

  function AuthzMapFromScope(org: string, project: string): map<string, seq<string>> {
    var o, p := TrimSpace(org), TrimSpace(project);
    if o == "" then map[] else if p == "" then map[o := []] else map[o := [p]]
  }

  // ---------- normal forms ----------

  /** The path an access resource is judged by. */
  function PathOf(url: UrlPath, trimmed: string): string {
    match url(trimmed)
    case Some(path) => if path != "" then path else trimmed
    case None => trimmed
  }

  /** The segments of a path. */
  function Pieces(path: string): seq<string> {
    Split(Trim("/" + Trim(path, IsSlash), IsSlash), '/')
  }

  function Segments(url: UrlPath, trimmed: string): seq<string> {
    Pieces(PathOf(url, trimmed))
  }

  function NormalizeAccessResource(url: UrlPath, raw: string): string {
    var trimmed := TrimSpace(raw);
    if trimmed == "" then ""
    else
      var parts := Segments(url, trimmed);
      if |parts| >= 2 && IsOrgAlias(parts[0]) then
        var org := TrimSpace(parts[1]);
        if org == "" then ""
        else if |parts| >= 4 && IsProjectAlias(parts[2]) && TrimSpace(parts[3]) != ""
        then ProjectPath(org, TrimSpace(parts[3]))
        else OrgPath(org)
      else trimmed
  }

  function ParseResourcePath(url: UrlPath, path: string): (string, string) {
    var normal := NormalizeAccessResource(url, path);
    if !(ORGANIZATION <= normal) then ("", "")
    else
      match Cut(normal[|ORGANIZATION|..], PROJECT)
      case None => (TrimSpace(normal[|ORGANIZATION|..]), "")
      case Some((org, project)) => (TrimSpace(org), TrimSpace(project))
  }

  function ResourceScope(url: UrlPath, resource: string): (string, string, bool) {
    var (org, project) := ParseResourcePath(url, resource);
    if org == "" then ("", "", false) else (org, project, true)
  }

  /** The normal form of one resource, or nothing if that is empty. */
  function FormOf(url: UrlPath, resource: string): seq<string> {
    var normal := NormalizeAccessResource(url, resource);
    if normal == "" then [] else [normal]
  }

  /** The non-empty normal forms of a list, in order. */
  function NormalForms(url: UrlPath, resources: seq<string>): seq<string> {
    if resources == [] then []
    else
      var init, last := resources[..|resources| - 1], resources[|resources| - 1];
      NormalForms(url, init) + FormOf(url, last)
  }

  /** What one more resource adds to the list: its normal form, unless that is empty or there already. */
  lemma NextForm(url: UrlPath, resources: seq<string>, k: nat)
    requires k < |resources|
    ensures var out := Dedup(NormalForms(url, resources[..k]));
            var form := NormalizeAccessResource(url, resources[k]);
            Dedup(NormalForms(url, resources[..k + 1])) == if form == "" || form in out then out else out + [form]
  {
    var before := NormalForms(url, resources[..k]);
    assert resources[..k + 1][..k] == resources[..k];
    assert NormalForms(url, resources[..k + 1]) == before + FormOf(url, resources[k]);
    var form := NormalizeAccessResource(url, resources[k]);
    if form == "" {
      assert before + [] == before;
    } else {
      DedupAppend(before, form);
    }
  }

  lemma {:induction false} NormalFormsMembers(url: UrlPath, resources: seq<string>, x: string)
    ensures x in NormalForms(url, resources) <==>
            x != "" && exists r :: r in resources && NormalizeAccessResource(url, r) == x
  {
    if resources != [] {
      var init, last := resources[..|resources| - 1], resources[|resources| - 1];
      assert resources == init + [last];
      NormalFormsMembers(url, init, x);
    }
  }

  method NormalizeAccessResources(url: UrlPath, resources: seq<string>) returns (out: seq<string>)
    ensures out == Dedup(NormalForms(url, resources))
    ensures NoDup(out)
    ensures forall x :: x in out <==> x != "" && exists r :: r in resources && NormalizeAccessResource(url, r) == x
  {
    var seen: set<string> := {};
    out := [];
    for k := 0 to |resources|
      invariant out == Dedup(NormalForms(url, resources[..k]))
      invariant forall x :: x in seen <==> x in out
    {
      NextForm(url, resources, k);
      var resource := NormalizeAccessResource(url, resources[k]);
      if resource == "" {
        continue;
      }
      if resource in seen {
        continue;
      }
      seen := seen + {resource};
      out := out + [resource];
    }
    assert resources[..|resources|] == resources;
    forall x
      ensures x in out <==> x != "" && exists r :: r in resources && NormalizeAccessResource(url, r) == x
    {
      NormalFormsMembers(url, resources, x);
    }
  }

  // ---------- lists and maps ----------

  /** An organization, empty if a path names none, and a project, empty if it names none. */
  type Scope = (string, string)

  function ScopesBy(f: string -> Scope, texts: seq<string>): (r: seq<Scope>)
    ensures |r| == |texts|
  {
    seq(|texts|, i requires 0 <= i < |texts| => f(texts[i]))
  }

  /** How one entry of a path list is read. */
  function Read(url: UrlPath, path: string): Scope {
    ParseResourcePath(url, TrimSpace(path))
  }

  function Reader(url: UrlPath): string -> Scope {
    (path: string) => Read(url, path)
  }

  function Scopes(url: UrlPath, paths: seq<string>): (r: seq<Scope>)
    ensures |r| == |paths|
  {
    ScopesBy(Reader(url), paths)
  }

  /** The projects named under one organization, in order. */
  function ProjectsOf(scopes: seq<Scope>, org: string): seq<string> {
    if scopes == [] then []
    else
      var init, last := scopes[..|scopes| - 1], scopes[|scopes| - 1];
      ProjectsOf(init, org) + if last.0 == org && last.1 != "" then [last.1] else []
  }

  function OrgsOf(scopes: seq<Scope>): set<string> {
    set k | 0 <= k < |scopes| && scopes[k].0 != "" :: scopes[k].0
  }

  /** Every organization named, with the projects named under it. */
  function MapOf(scopes: seq<Scope>): map<string, seq<string>> {
    map org | org in OrgsOf(scopes) :: ProjectsOf(scopes, org)
  }

  function ListToMap(url: UrlPath, paths: seq<string>): map<string, seq<string>> {
    MapOf(Scopes(url, paths))
  }

  /** An organization no path names has no projects. */
  lemma {:induction false} NoProjectsWithoutOrg(scopes: seq<Scope>, org: string)
    requires org !in OrgsOf(scopes) && org != ""
    ensures ProjectsOf(scopes, org) == []
  {
    if scopes != [] {
      var init, last := scopes[..|scopes| - 1], scopes[|scopes| - 1];
      assert last.0 != "" ==> last.0 in OrgsOf(scopes);
      assert OrgsOf(init) <= OrgsOf(scopes) by {
        forall o | o in OrgsOf(init)
          ensures o in OrgsOf(scopes)
        {
          var k :| 0 <= k < |init| && init[k].0 == o;
          assert scopes[k].0 == o;
        }
      }
      NoProjectsWithoutOrg(init, org);
    }
  }

  lemma OrgsOfAppend(scopes: seq<Scope>, s: Scope)
    ensures OrgsOf(scopes + [s]) == OrgsOf(scopes) + if s.0 == "" then {} else {s.0}
  {
    var all := scopes + [s];
    assert forall k :: 0 <= k < |scopes| ==> all[k] == scopes[k];
    assert all[|scopes|] == s;
  }

  lemma ProjectsOfAppend(scopes: seq<Scope>, s: Scope, org: string)
    ensures ProjectsOf(scopes + [s], org) == ProjectsOf(scopes, org) + if s.0 == org && s.1 != "" then [s.1] else []
  {
    var all := scopes + [s];
    assert all[..|all| - 1] == scopes && all[|all| - 1] == s;
  }

  /** A map with one more scope recorded in it. */
  function Record(m: map<string, seq<string>>, s: Scope): map<string, seq<string>> {
    if s.0 == "" then m
    else
      var m' := if s.0 in m then m else m[s.0 := []];
      if s.1 == "" then m' else m'[s.0 := m'[s.0] + [s.1]]
  }

  /** What one more path changes in the map. */
  lemma MapOfAppend(scopes: seq<Scope>, s: Scope)
    ensures MapOf(scopes + [s]) == Record(MapOf(scopes), s)
  {
    OrgsOfAppend(scopes, s);
    if s.0 != "" && s.0 !in OrgsOf(scopes) {
      NoProjectsWithoutOrg(scopes, s.0);
    }
    assert "" !in OrgsOf(scopes);
    forall org | org in OrgsOf(scopes + [s])
      ensures ProjectsOf(scopes + [s], org) == Record(MapOf(scopes), s)[org]
    {
      ProjectsOfAppend(scopes, s, org);
    }
  }

  lemma MapOfNext(f: string -> Scope, paths: seq<string>, k: nat)
    requires k < |paths|
    ensures MapOf(ScopesBy(f, paths[..k + 1])) == Record(MapOf(ScopesBy(f, paths[..k])), f(paths[k]))
  {
    assert ScopesBy(f, paths[..k + 1]) == ScopesBy(f, paths[..k]) + [f(paths[k])];
    MapOfAppend(ScopesBy(f, paths[..k]), f(paths[k]));
  }

  method AuthzListToMap(url: UrlPath, paths: seq<string>) returns (result: map<string, seq<string>>)
    ensures result == ListToMap(url, paths)
  {
    result := map[];
    for k := 0 to |paths|
      invariant result == ListToMap(url, paths[..k])
    {
      MapOfNext(Reader(url), paths, k);
      var (org, project) := ParseResourcePath(url, TrimSpace(paths[k]));
      if org == "" {
        continue;
      }
      if org !in result {
        result := result[org := []];
      }
      if project != "" {
        result := result[org := result[org] + [project]];
      }
    }
    assert paths[..|paths|] == paths;
  }

  function EntryPath(org: string, project: string): string {
    if TrimSpace(project) == "" then OrgPath(org) else ProjectPath(org, TrimSpace(project))
  }

  function EntriesOf(org: string, projects: seq<string>): (r: seq<string>)
    ensures |r| == |projects|
  {
    seq(|projects|, i requires 0 <= i < |projects| => EntryPath(org, projects[i]))
  }

  /** What one organization contributes to the list form. */
  function Entries(org: string, projects: seq<string>): seq<string> {
    if projects == [] then [OrgPath(org)] else EntriesOf(org, projects)
  }

  /** The list form when the organizations are visited in the given order. */
  function Listing(m: map<string, seq<string>>, order: seq<string>): seq<string>
    requires forall k :: k in order ==> k in m
  {
    if order == [] then []
    else
      var init, last := order[..|order| - 1], order[|order| - 1];
      Listing(m, init) + Entries(last, m[last])
  }

  /** An entry of the list form, letter by letter. */
  ghost predicate IsEntry(org: string, project: string, text: string) {
    text == if TrimSpace(project) == "" then "/organization/" + org
            else "/organization/" + org + "/project/" + TrimSpace(project)
  }

  lemma EntryPathIsEntry(org: string, project: string)
    ensures IsEntry(org, project, EntryPath(org, project))
  {
  }

  /** The inner loop: the entries of one organization. */
  method ListEntries(org: string, projects: seq<string>) returns (out: seq<string>)
    ensures out == Entries(org, projects)
    ensures projects == [] ==> out == ["/organization/" + org]
    ensures projects != [] ==> |out| == |projects| && forall k :: 0 <= k < |projects| ==> IsEntry(org, projects[k], out[k])
  {
    if |projects| == 0 {
      return [OrgPath(org)];
    }
    out := [];
    for k := 0 to |projects|
      invariant out == EntriesOf(org, projects[..k])
    {
      assert EntriesOf(org, projects[..k + 1]) == EntriesOf(org, projects[..k]) + [EntryPath(org, projects[k])];
      var project := TrimSpace(projects[k]);
      if project == "" {
        out := out + [OrgPath(org)];
        continue;
      }
      out := out + [ProjectPath(org, project)];
    }
    assert projects[..|projects|] == projects;
    forall k | 0 <= k < |projects|
      ensures IsEntry(org, projects[k], out[k])
    {
      EntryPathIsEntry(org, projects[k]);
    }
  }

  /** The list form holds the entries of every organization and nothing else. */
  lemma {:induction false} ListingMembers(m: map<string, seq<string>>, order: seq<string>, x: string)
    requires forall k :: k in order ==> k in m
    ensures x in Listing(m, order) <==> exists org :: org in order && x in Entries(org, m[org])
  {
    if order != [] {
      var init, last := order[..|order| - 1], order[|order| - 1];
      assert order == init + [last];
      ListingMembers(m, init, x);
    }
  }

  /** The list is the list form of the map for some order of its organizations. */
  ghost predicate ListForm(m: map<string, seq<string>>, list: seq<string>) {
    exists order :: Enumerates(order, m.Keys) && list == Listing(m, order)
  }

  method AuthzMapToList(m: map<string, seq<string>>) returns (out: seq<string>)
    ensures ListForm(m, out)
  {
    ghost var order: seq<string> := [];
    out := [];
    var rest := m.Keys;
    while rest != {}
      invariant rest <= m.Keys
      invariant Enumerates(order, m.Keys - rest)
      invariant out == Listing(m, order)
      decreases |rest|
    {
      var org :| org in rest;
      var entries := ListEntries(org, m[org]);
      EnumeratesMore(order, m.Keys - rest, org);
      assert (order + [org])[..|order|] == order;
      assert m.Keys - (rest - {org}) == (m.Keys - rest) + {org};
      out, order, rest := out + entries, order + [org], rest - {org};
    }
    assert m.Keys - {} == m.Keys;
  }

  method ControlledAccessToAuthzMap(url: UrlPath, claims: seq<string>) returns (m: map<string, seq<string>>)
    ensures m == ListToMap(url, Dedup(NormalForms(url, claims)))
  {
    var resources := NormalizeAccessResources(url, claims);
    m := AuthzListToMap(url, resources);
  }

  method AuthzMapToControlledAccess(url: UrlPath, m: map<string, seq<string>>) returns (out: seq<string>)
    ensures exists list :: ListForm(m, list) && out == Dedup(NormalForms(url, list))
  {
    var list := AuthzMapToList(m);
    out := NormalizeAccessResources(url, list);
  }
}
