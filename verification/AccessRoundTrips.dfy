/**
 The list form and the map form of access resources: what survives going from one to the
 other and back, for every order in which Go may visit a map.
 */
module AccessRoundTrips {
  import opened Basics
  import opened Strings
  import opened AccessResources
  import opened AccessNormalForms

  // ---------- scopes, without text ----------

  lemma {:induction false} ProjectsOfConcat(a: seq<Scope>, b: seq<Scope>, org: string)
    ensures ProjectsOf(a + b, org) == ProjectsOf(a, org) + ProjectsOf(b, org)
  {
    if b == [] {
      assert a + b == a;
    } else {
      var init, last := b[..|b| - 1], b[|b| - 1];
      assert a + b == (a + init) + [last] && b == init + [last];
      ProjectsOfConcat(a, init, org);
      ProjectsOfAppend(a + init, last, org);
      ProjectsOfAppend(init, last, org);
    }
  }

  lemma OrgsOfConcat(a: seq<Scope>, b: seq<Scope>)
    ensures OrgsOf(a + b) == OrgsOf(a) + OrgsOf(b)
  {
    forall o | o in OrgsOf(a) + OrgsOf(b)
      ensures o in OrgsOf(a + b)
    {
      if o in OrgsOf(a) {
        var k :| 0 <= k < |a| && a[k].0 == o && o != "";
        assert (a + b)[k].0 == o;
      } else {
        var k :| 0 <= k < |b| && b[k].0 == o && o != "";
        assert (a + b)[|a| + k].0 == o;
      }
    }
    forall o | o in OrgsOf(a + b)
      ensures o in OrgsOf(a) + OrgsOf(b)
    {
      var k :| 0 <= k < |a + b| && (a + b)[k].0 == o && o != "";
      assert (a + b)[k] == if k < |a| then a[k] else b[k - |a|];
    }
  }

  /** A project is listed under its organization as often as the scope occurs. */
  lemma {:induction false} ProjectsOfCounts(scopes: seq<Scope>, org: string, project: string)
    requires project != ""
    ensures multiset(ProjectsOf(scopes, org))[project] == multiset(scopes)[(org, project)]
  {
    if scopes != [] {
      var init, last := scopes[..|scopes| - 1], scopes[|scopes| - 1];
      assert scopes == init + [last];
      ProjectsOfCounts(init, org, project);
      assert last == (last.0, last.1);
    }
  }

  lemma {:induction false} ProjectsOfMembers(scopes: seq<Scope>, org: string, project: string)
    requires project in ProjectsOf(scopes, org)
    ensures project != "" && (org, project) in scopes
  {
    var init, last := scopes[..|scopes| - 1], scopes[|scopes| - 1];
    if last == (org, project) && project != "" {
    } else {
      ProjectsOfMembers(init, org, project);
    }
  }

  /** The scopes one organization contributes to the list form. */
  function EntryScopes(org: string, projects: seq<string>): seq<Scope> {
    if projects == [] then [(org, "")]
    else seq(|projects|, i requires 0 <= i < |projects| => (org, projects[i]))
  }

  function ListingScopes(m: map<string, seq<string>>, order: seq<string>): seq<Scope>
    requires forall k :: k in order ==> k in m
  {
    if order == [] then []
    else
      var init, last := order[..|order| - 1], order[|order| - 1];
      ListingScopes(m, init) + EntryScopes(last, m[last])
  }

  lemma {:induction false} EntryProjects(org: string, projects: seq<string>, o: string)
    requires "" !in projects
    ensures ProjectsOf(EntryScopes(org, projects), o) == if o == org then projects else []
  {
    var scopes := EntryScopes(org, projects);
    if projects == [] {
      assert scopes == [] + [(org, "")];
      ProjectsOfAppend([], (org, ""), o);
    } else {
      var init, last := projects[..|projects| - 1], projects[|projects| - 1];
      assert projects == init + [last];
      if init == [] {
        assert scopes == [] + [(org, last)];
        ProjectsOfAppend([], (org, last), o);
      } else {
        assert scopes == EntryScopes(org, init) + [(org, last)];
        EntryProjects(org, init, o);
        ProjectsOfAppend(EntryScopes(org, init), (org, last), o);
      }
    }
  }

  lemma EntryOrgs(org: string, projects: seq<string>)
    requires org != ""
    ensures OrgsOf(EntryScopes(org, projects)) == {org}
  {
    assert EntryScopes(org, projects)[0].0 == org;
  }

  /** Every key in the order has a name and a list of named projects. */
  ghost predicate Listable(m: map<string, seq<string>>, order: seq<string>) {
    forall k :: k in order ==> k in m && k != "" && "" !in m[k]
  }

  lemma ListableInit(m: map<string, seq<string>>, order: seq<string>)
    requires order != [] && Listable(m, order)
    ensures Listable(m, order[..|order| - 1]) && order[|order| - 1] in order
    ensures forall o :: o in order <==> o in order[..|order| - 1] || o == order[|order| - 1]
    ensures NoDup(order) ==> NoDup(order[..|order| - 1]) && order[|order| - 1] !in order[..|order| - 1]
  {
    var init, last := order[..|order| - 1], order[|order| - 1];
    assert order == init + [last];
    forall k | k in init
      ensures k in order
    {
      var i :| 0 <= i < |init| && init[i] == k;
      assert order[i] == k;
    }
  }

  lemma {:induction false} ListingOrgs(m: map<string, seq<string>>, order: seq<string>)
    requires Listable(m, order)
    ensures forall o :: o in OrgsOf(ListingScopes(m, order)) <==> o in order
  {
    if order != [] {
      var init, last := order[..|order| - 1], order[|order| - 1];
      ListableInit(m, order);
      ListingOrgs(m, init);
      OrgsOfConcat(ListingScopes(m, init), EntryScopes(last, m[last]));
      EntryOrgs(last, m[last]);
    }
  }

  /** Every project list reads back from the list form, whatever the order. */
  lemma {:induction false} ListingProjects(m: map<string, seq<string>>, order: seq<string>, o: string)
    requires Listable(m, order) && NoDup(order)
    ensures ProjectsOf(ListingScopes(m, order), o) == if o in order then m[o] else []
  {
    if order != [] {
      var init, last := order[..|order| - 1], order[|order| - 1];
      ListableInit(m, order);
      ListingProjects(m, init, o);
      ProjectsOfConcat(ListingScopes(m, init), EntryScopes(last, m[last]), o);
      EntryProjects(last, m[last], o);
    }
  }

  lemma MapOfEquals(scopes: seq<Scope>, m: map<string, seq<string>>)
    requires OrgsOf(scopes) == m.Keys && forall o :: o in m ==> ProjectsOf(scopes, o) == m[o]
    ensures MapOf(scopes) == m
  {
  }

  // ---------- the list form as text ----------

  ghost predicate ProperEntry(org: string, projects: seq<string>) {
    || (Name(org) && forall p :: p in projects ==> Name(p))
    || (Slashes(org) && projects == [])
  }

  /** A map that parsing could have produced: plain names, or the oddity. */
  ghost predicate ProperMap(m: map<string, seq<string>>) {
    forall org :: org in m ==> ProperEntry(org, m[org])
  }

  ghost predicate PlainMap(m: map<string, seq<string>>) {
    forall o :: o in m ==> Plain(o) && forall p :: p in m[o] ==> Plain(p)
  }

  ghost predicate PlainList(paths: seq<string>) {
    forall i :: 0 <= i < |paths| ==> Plain(paths[i])
  }

  lemma ScopesByConcat(f: string -> Scope, a: seq<string>, b: seq<string>)
    ensures ScopesBy(f, a + b) == ScopesBy(f, a) + ScopesBy(f, b)
  {
  }

  lemma ScopesConcat(url: UrlPath, a: seq<string>, b: seq<string>)
    ensures Scopes(url, a + b) == Scopes(url, a) + Scopes(url, b)
  {
    ScopesByConcat(Reader(url), a, b);
  }

  lemma PrintReads(url: UrlPath, s: Scope)
    requires KeepsPlain(url) && Proper(s)
    ensures Scopes(url, [Print(s)]) == [s]
  {
    NormalizeTrimmed(url, Print(s));
    PrintParses(url, s);
  }

  lemma {:induction false} EntriesOfRead(url: UrlPath, org: string, projects: seq<string>)
    requires KeepsPlain(url) && Name(org) && projects != [] && forall p :: p in projects ==> Name(p)
    ensures Scopes(url, EntriesOf(org, projects)) == EntryScopes(org, projects)
  {
    var init, last := projects[..|projects| - 1], projects[|projects| - 1];
    assert last in projects && projects == init + [last];
    TrimOfTrimmed(last, IsSpace);
    PrintReads(url, (org, last));
    assert EntriesOf(org, projects) == EntriesOf(org, init) + [Print((org, last))];
    ScopesConcat(url, EntriesOf(org, init), [Print((org, last))]);
    if init == [] {
      assert EntriesOf(org, init) == [] && Scopes(url, []) == [];
    } else {
      EntriesOfRead(url, org, init);
    }
  }

  lemma {:induction false} EntriesRead(url: UrlPath, org: string, projects: seq<string>)
    requires KeepsPlain(url)
    requires ProperEntry(org, projects)
    ensures Scopes(url, Entries(org, projects)) == EntryScopes(org, projects)
  {
    if projects == [] {
      PrintReads(url, (org, ""));
    } else {
      EntriesOfRead(url, org, projects);
    }
  }

  /** Reading the list form of a proper map gives the scopes that were printed. */
  lemma {:induction false} ListingReads(url: UrlPath, m: map<string, seq<string>>, order: seq<string>)
    requires KeepsPlain(url) && ProperMap(m) && forall k :: k in order ==> k in m
    ensures Scopes(url, Listing(m, order)) == ListingScopes(m, order)
  {
    if order != [] {
      var init, last := order[..|order| - 1], order[|order| - 1];
      ListingReads(url, m, init);
      EntriesRead(url, last, m[last]);
      ScopesConcat(url, Listing(m, init), Entries(last, m[last]));
    }
  }

  // ---------- what parsing a plain list produces ----------

  ghost predicate AllProper(scopes: seq<Scope>) {
    forall s :: s in scopes ==> if s.0 == "" then s.1 == "" else Proper(s)
  }

  lemma ListScopesProper(url: UrlPath, paths: seq<string>)
    requires KeepsPlain(url) && PlainList(paths)
    ensures AllProper(Scopes(url, paths))
  {
    forall s | s in Scopes(url, paths)
      ensures if s.0 == "" then s.1 == "" else Proper(s)
    {
      var k :| 0 <= k < |paths| && s == Scopes(url, paths)[k];
      NormalizeTrimmed(url, paths[k]);
      ScopeIsProper(url, paths[k]);
    }
  }

  lemma ProjectsProper(scopes: seq<Scope>, org: string)
    requires AllProper(scopes) && org in OrgsOf(scopes)
    ensures ProperEntry(org, ProjectsOf(scopes, org))
  {
    var projects := ProjectsOf(scopes, org);
    var k :| 0 <= k < |scopes| && scopes[k].0 == org && org != "";
    assert scopes[k] in scopes;
    forall p | p in projects
      ensures Name(org) && Name(p)
    {
      ProjectsOfMembers(scopes, org, p);
      assert Proper((org, p));
    }
    if projects != [] {
      assert projects[0] in projects;
    }
  }

  lemma MapOfProper(scopes: seq<Scope>)
    requires AllProper(scopes)
    ensures ProperMap(MapOf(scopes))
  {
    forall org | org in MapOf(scopes)
      ensures ProperEntry(org, MapOf(scopes)[org])
    {
      ProjectsProper(scopes, org);
    }
  }

  lemma EntryPathPlain(org: string, project: string)
    requires Plain(org) && Plain(project)
    ensures Plain(EntryPath(org, project))
  {
    TrimKeeps(project, IsSpace, IsEscape);
    PrintIsPlain((org, ""));
    PrintIsPlain((org, TrimSpace(project)));
  }

  lemma EntriesPlain(org: string, projects: seq<string>)
    requires Plain(org) && forall p :: p in projects ==> Plain(p)
    ensures PlainList(Entries(org, projects))
  {
    PrintIsPlain((org, ""));
    forall i | 0 <= i < |projects|
      ensures Plain(EntryPath(org, projects[i]))
    {
      EntryPathPlain(org, projects[i]);
    }
  }

  lemma {:induction false} ListingPlain(m: map<string, seq<string>>, order: seq<string>)
    requires PlainMap(m) && forall k :: k in order ==> k in m
    ensures PlainList(Listing(m, order))
  {
    if order != [] {
      var init, last := order[..|order| - 1], order[|order| - 1];
      ListingPlain(m, init);
      EntriesPlain(last, m[last]);
    }
  }

  // ---------- map to list to map ----------

  lemma ProperListable(m: map<string, seq<string>>, order: seq<string>)
    requires ProperMap(m) && forall k :: k in order ==> k in m
    ensures Listable(m, order)
  {
    forall k | k in order
      ensures k != "" && "" !in m[k]
    {
      assert ProperEntry(k, m[k]);
    }
  }

  lemma ListingReturns(m: map<string, seq<string>>, order: seq<string>)
    requires Listable(m, order) && Enumerates(order, m.Keys)
    ensures MapOf(ListingScopes(m, order)) == m
  {
    var scopes := ListingScopes(m, order);
    ListingOrgs(m, order);
    forall o | o in m
      ensures ProjectsOf(scopes, o) == m[o]
    {
      ListingProjects(m, order, o);
    }
    assert OrgsOf(scopes) == m.Keys;
    MapOfEquals(scopes, m);
  }

  lemma ProperMapReturns(url: UrlPath, m: map<string, seq<string>>, order: seq<string>)
    requires KeepsPlain(url) && ProperMap(m) && Enumerates(order, m.Keys)
    ensures ListToMap(url, Listing(m, order)) == m
  {
    ListingReads(url, m, order);
    ProperListable(m, order);
    ListingReturns(m, order);
  }

  /**
   The map round trip, exactly. For a map whose names are free of `%`, `?` and `#`, and for
   every order in which it is visited, printing and reading it back gives the same map, with
   the order and multiplicity of every project list, if and only if every name is trimmed,
   non-empty and without a slash, or is an organization of slashes only without projects.
   */
  lemma MapRoundTrip(url: UrlPath, m: map<string, seq<string>>, order: seq<string>)
    requires KeepsPlain(url) && PlainMap(m) && Enumerates(order, m.Keys)
    ensures ListToMap(url, Listing(m, order)) == m <==> ProperMap(m)
  {
    var list := Listing(m, order);
    if ProperMap(m) {
      ProperMapReturns(url, m, order);
    }
    if ListToMap(url, list) == m {
      ListingPlain(m, order);
      ListScopesProper(url, list);
      MapOfProper(Scopes(url, list));
    }
  }

  lemma MapOfOne(s: Scope)
    requires s.0 != ""
    ensures MapOf([s]) == map[s.0 := if s.1 == "" then [] else [s.1]]
  {
    assert [s][..0] == [];
    var projects := if s.1 == "" then [] else [s.1];
    assert ProjectsOf([s], s.0) == projects by {
      assert [] + projects == projects;
    }
    assert [s][0] == s;
    assert OrgsOf([s]) == {s.0};
  }

  lemma PrintedListMap(url: UrlPath, s: Scope)
    requires KeepsPlain(url) && Proper(s)
    ensures ListToMap(url, [Print(s)]) == MapOf([s])
  {
    PrintReads(url, s);
  }

  /** Printing one scope and reading it back as a list gives the map that is built for that scope directly. */
  lemma ScopeMapsAgree(url: UrlPath, org: string, project: string)
    requires KeepsPlain(url) && Name(TrimSpace(org)) && (TrimSpace(project) == "" || Name(TrimSpace(project)))
    ensures ResourcePath(org, project).Ok?
    ensures ListToMap(url, [ResourcePath(org, project).value]) == AuthzMapFromScope(org, project)
  {
    var s: Scope := (TrimSpace(org), TrimSpace(project));
    PrintedListMap(url, s);
    MapOfOne(s);
  }

  /** A map that does not return: a blank project is printed as its organization. */
  lemma BlankProjectIsLost(url: UrlPath, m: map<string, seq<string>>)
    requires KeepsPlain(url) && m == map["o" := [""]]
    ensures ListToMap(url, Listing(m, ["o"])) != m
  {
    assert "" in m["o"];
    assert forall k :: k in ["o"] <==> k in m.Keys;
    assert !ProperEntry("o", m["o"]);
    MapRoundTrip(url, m, ["o"]);
  }

  // ---------- list to map to list ----------

  /** The organization is named both alone and with a project. */
  ghost predicate BothWays(scopes: seq<Scope>, org: string) {
    org != "" && (org, "") in scopes && exists p :: p != "" && (org, p) in scopes
  }

  lemma {:induction false} EntryCounts(org: string, projects: seq<string>, s: Scope)
    requires "" !in projects
    ensures multiset(EntryScopes(org, projects))[s] ==
            if s.0 != org then 0
            else if s.1 == "" then (if projects == [] then 1 else 0)
            else multiset(projects)[s.1]
  {
    if projects != [] {
      var init, last := projects[..|projects| - 1], projects[|projects| - 1];
      assert projects == init + [last];
      EntryCounts(org, init, s);
      if init == [] {
        assert EntryScopes(org, projects) == [(org, last)];
      } else {
        assert EntryScopes(org, projects) == EntryScopes(org, init) + [(org, last)];
      }
      assert s == (s.0, s.1);
    } else {
      assert s == (s.0, s.1);
    }
  }

  lemma {:induction false} ListingCounts(m: map<string, seq<string>>, order: seq<string>, s: Scope)
    requires forall k :: k in order ==> k in m && "" !in m[k]
    requires NoDup(order)
    ensures multiset(ListingScopes(m, order))[s] ==
            if s.0 !in order then 0
            else if s.1 == "" then (if m[s.0] == [] then 1 else 0)
            else multiset(m[s.0])[s.1]
  {
    if order != [] {
      var init, last := order[..|order| - 1], order[|order| - 1];
      assert order == init + [last];
      ListingCounts(m, init, s);
      EntryCounts(last, m[last], s);
    }
  }

  lemma NamedOrg(scopes: seq<Scope>, s: Scope)
    requires s in scopes && s.0 != ""
    ensures s.0 in OrgsOf(scopes)
  {
    var k :| 0 <= k < |scopes| && scopes[k] == s;
  }

  /** An organization has no projects in the map exactly if it was only named alone. */
  lemma OrgWideKept(scopes: seq<Scope>, org: string)
    requires org != ""
    ensures (org in OrgsOf(scopes) && ProjectsOf(scopes, org) == []) <==> ((org, "") in scopes && !BothWays(scopes, org))
  {
    var s: Scope := (org, "");
    if s in scopes {
      NamedOrg(scopes, s);
    }
    if exists p :: p != "" && (org, p) in scopes {
      var p :| p != "" && (org, p) in scopes;
      ProjectsOfCounts(scopes, org, p);
    } else {
      if ProjectsOf(scopes, org) != [] {
        ProjectsOfMembers(scopes, org, ProjectsOf(scopes, org)[0]);
      }
      if org in OrgsOf(scopes) {
        var k :| 0 <= k < |scopes| && scopes[k].0 == org;
        assert scopes[k] == (org, scopes[k].1) && scopes[k] in scopes;
      }
    }
  }

  /**
   The list round trip, exactly. Read as scopes, the printed list has every project scope as
   often as before, and the organization-wide scope of an organization once if it was named
   without any project, not at all otherwise.
   */
  lemma ListRoundTrip(url: UrlPath, paths: seq<string>, order: seq<string>, s: Scope)
    requires KeepsPlain(url) && PlainList(paths)
    requires Enumerates(order, ListToMap(url, paths).Keys) && s.0 != ""
    ensures var before := Scopes(url, paths);
            var after := Scopes(url, Listing(ListToMap(url, paths), order));
            multiset(after)[s] ==
              if s.1 != "" then multiset(before)[s]
              else if (s in before && !BothWays(before, s.0)) then 1 else 0
  {
    var before := Scopes(url, paths);
    var m := MapOf(before);
    ListScopesProper(url, paths);
    MapOfProper(before);
    ListingReads(url, m, order);
    forall o | o in m
      ensures "" !in m[o]
    {
      if "" in m[o] {
        ProjectsOfMembers(before, o, "");
      }
    }
    ListingCounts(m, order, s);
    if s.1 != "" {
      ProjectsOfCounts(before, s.0, s.1);
      assert s == (s.0, s.1);
      if s in before {
        NamedOrg(before, s);
      }
    } else {
      OrgWideKept(before, s.0);
    }
  }

  /** So the set of named scopes survives the round trip if and only if no organization is named both ways. */
  lemma ListSetRoundTrip(url: UrlPath, paths: seq<string>, order: seq<string>)
    requires KeepsPlain(url) && PlainList(paths)
    requires Enumerates(order, ListToMap(url, paths).Keys)
    ensures var before := Scopes(url, paths);
            var after := Scopes(url, Listing(ListToMap(url, paths), order));
            (forall s: Scope :: s.0 != "" ==> (s in before <==> s in after)) <==> (forall org :: !BothWays(before, org))
  {
    var before := Scopes(url, paths);
    var after := Scopes(url, Listing(ListToMap(url, paths), order));
    forall s: Scope | s.0 != ""
      ensures s in after <==> s in before && (s.1 == "" ==> !BothWays(before, s.0))
    {
      ListRoundTrip(url, paths, order, s);
      assert s in after <==> multiset(after)[s] > 0;
      assert s in before <==> multiset(before)[s] > 0;
    }
    if org :| BothWays(before, org) {
      var s: Scope := (org, "");
      assert s in before && s !in after;
    }
  }

  // ---------- normalised lists ----------

  /** Already normal, and not dropped. */
  ghost predicate AllNormal(url: UrlPath, resources: seq<string>) {
    forall i :: 0 <= i < |resources| ==>
      resources[i] != "" && NormalizeAccessResource(url, resources[i]) == resources[i] && Plain(resources[i])
  }

  lemma {:induction false} NormalFormsAreNormal(url: UrlPath, resources: seq<string>)
    requires KeepsPlain(url) && PlainList(resources)
    ensures AllNormal(url, NormalForms(url, resources))
  {
    if resources != [] {
      NormalFormsAreNormal(url, resources[..|resources| - 1]);
      NormalizeIdempotent(url, resources[|resources| - 1]);
    }
  }

  lemma {:induction false} NormalFormsOfNormal(url: UrlPath, resources: seq<string>)
    requires AllNormal(url, resources)
    ensures NormalForms(url, resources) == resources
  {
    if resources != [] {
      var init, last := resources[..|resources| - 1], resources[|resources| - 1];
      assert resources == init + [last];
      NormalFormsOfNormal(url, init);
    }
  }

  lemma DedupKeepsNormal(url: UrlPath, resources: seq<string>)
    requires AllNormal(url, resources)
    ensures AllNormal(url, Dedup(resources))
  {
    var d := Dedup(resources);
    forall i | 0 <= i < |d|
      ensures d[i] != "" && NormalizeAccessResource(url, d[i]) == d[i] && Plain(d[i])
    {
      assert d[i] in resources;
      var k :| 0 <= k < |resources| && resources[k] == d[i];
    }
  }

  /** Normalising a list a second time changes nothing. */
  lemma NormalizeListIdempotent(url: UrlPath, resources: seq<string>)
    requires KeepsPlain(url) && PlainList(resources)
    ensures var once := Dedup(NormalForms(url, resources));
            Dedup(NormalForms(url, once)) == once
  {
    var forms := NormalForms(url, resources);
    NormalFormsAreNormal(url, resources);
    DedupKeepsNormal(url, forms);
    NormalFormsOfNormal(url, Dedup(forms));
    DedupOfDistinct(Dedup(forms));
  }

  /** Two normal texts with the same organization and project are the same text. */
  lemma ScopeDetermines(url: UrlPath, x: string, y: string)
    requires KeepsPlain(url) && AllNormal(url, [x]) && AllNormal(url, [y])
    requires Reader(url)(x) == Reader(url)(y) && Reader(url)(x).0 != ""
    ensures x == y
  {
    assert [x][0] == x && [y][0] == y;
    NormalizeTrimmed(url, x);
    NormalizeTrimmed(url, y);
    ScopeIsProper(url, x);
    ScopeIsProper(url, y);
  }

  /** Among these texts, a scope with an organization has one text. */
  ghost predicate Separates(f: string -> Scope, texts: seq<string>) {
    forall i, j :: 0 <= i < |texts| && 0 <= j < |texts| && f(texts[i]) == f(texts[j]) && f(texts[i]).0 != ""
      ==> texts[i] == texts[j]
  }

  lemma SeparatesPrefix(f: string -> Scope, init: seq<string>, last: string)
    requires Separates(f, init + [last])
    ensures Separates(f, init)
  {
    var texts := init + [last];
    forall i, j | 0 <= i < |init| && 0 <= j < |init| && f(init[i]) == f(init[j]) && f(init[i]).0 != ""
      ensures init[i] == init[j]
    {
      assert texts[i] == init[i] && texts[j] == init[j];
    }
  }

  lemma ScopesBySnoc(f: string -> Scope, init: seq<string>, last: string, org: string)
    ensures ProjectsOf(ScopesBy(f, init + [last]), org) ==
            ProjectsOf(ScopesBy(f, init), org) + if f(last).0 == org && f(last).1 != "" then [f(last).1] else []
  {
    assert ScopesBy(f, init + [last]) == ScopesBy(f, init) + [f(last)];
    ProjectsOfAppend(ScopesBy(f, init), f(last), org);
  }

  lemma DedupProjectsStep(f: string -> Scope, init: seq<string>, last: string, org: string)
    requires ProjectsOf(ScopesBy(f, Dedup(init)), org) == Dedup(ProjectsOf(ScopesBy(f, init), org))
    requires f(last).0 == org && f(last).1 != "" ==> (f(last).1 in ProjectsOf(ScopesBy(f, init), org) <==> last in init)
    ensures ProjectsOf(ScopesBy(f, Dedup(init + [last])), org) == Dedup(ProjectsOf(ScopesBy(f, init + [last]), org))
  {
    var projects, kept := ProjectsOf(ScopesBy(f, init), org), ProjectsOf(ScopesBy(f, Dedup(init)), org);
    DedupAppend(init, last);
    ScopesBySnoc(f, init, last, org);
    ScopesBySnoc(f, Dedup(init), last, org);
    if f(last).0 == org && f(last).1 != "" {
      DedupAppend(projects, f(last).1);
    } else {
      assert projects + [] == projects && kept + [] == kept;
    }
  }

  lemma SeenBy(f: string -> Scope, init: seq<string>, last: string, texts: seq<string>)
    requires texts == init + [last] && Separates(f, texts)
    requires f(last).0 != "" && f(last).1 != ""
    ensures f(last).1 in ProjectsOf(ScopesBy(f, init), f(last).0) <==> last in init
  {
    var scopes := ScopesBy(f, init);
    ProjectsOfCounts(scopes, f(last).0, f(last).1);
    assert f(last) == (f(last).0, f(last).1);
    if f(last) in scopes {
      var k :| 0 <= k < |init| && scopes[k] == f(last);
      assert texts[k] == init[k] && texts[|init|] == last;
    }
    if last in init {
      var k :| 0 <= k < |init| && init[k] == last;
      assert scopes[k] == f(last);
    }
  }

  /** If texts with one scope are one text, dropping repeated texts drops repeated projects. */
  lemma {:induction false} DedupProjectsBy(f: string -> Scope, texts: seq<string>, org: string)
    requires org != "" && Separates(f, texts)
    ensures ProjectsOf(ScopesBy(f, Dedup(texts)), org) == Dedup(ProjectsOf(ScopesBy(f, texts), org))
  {
    if texts != [] {
      var init, last := texts[..|texts| - 1], texts[|texts| - 1];
      assert texts == init + [last];
      SeparatesPrefix(f, init, last);
      DedupProjectsBy(f, init, org);
      if f(last).0 == org && f(last).1 != "" {
        SeenBy(f, init, last, texts);
      }
      DedupProjectsStep(f, init, last, org);
    }
  }

  lemma DedupProjects(url: UrlPath, forms: seq<string>, org: string)
    requires KeepsPlain(url) && AllNormal(url, forms) && org != ""
    ensures ProjectsOf(Scopes(url, Dedup(forms)), org) == Dedup(ProjectsOf(Scopes(url, forms), org))
  {
    var f := Reader(url);
    forall i, j | 0 <= i < |forms| && 0 <= j < |forms| && f(forms[i]) == f(forms[j]) && f(forms[i]).0 != ""
      ensures forms[i] == forms[j]
    {
      assert AllNormal(url, [forms[i]]) && AllNormal(url, [forms[j]]);
      ScopeDetermines(url, forms[i], forms[j]);
    }
    DedupProjectsBy(f, forms, org);
  }

  lemma FormScopes(url: UrlPath, claim: string, org: string)
    requires KeepsPlain(url) && Plain(claim) && org != ""
    ensures ProjectsOf(Scopes(url, FormOf(url, claim)), org) == ProjectsOf(Scopes(url, [claim]), org)
    ensures OrgsOf(Scopes(url, FormOf(url, claim))) == OrgsOf(Scopes(url, [claim]))
  {
    var normal := NormalizeAccessResource(url, claim);
    NormalizeTrimmed(url, claim);
    NormalizeIdempotent(url, claim);
    if normal == "" {
      ParseNeedsPrefix(url, claim);
      assert Scopes(url, [claim]) == [("", "")];
      assert ProjectsOf([("", "")], org) == [];
    } else {
      NormalizeTrimmed(url, normal);
      assert Scopes(url, [normal]) == Scopes(url, [claim]);
    }
  }

  /** Dropping and normalising claims first does not change what they name. */
  lemma {:induction false} NormalFormsScopes(url: UrlPath, claims: seq<string>, org: string)
    requires KeepsPlain(url) && PlainList(claims) && org != ""
    ensures ProjectsOf(Scopes(url, NormalForms(url, claims)), org) == ProjectsOf(Scopes(url, claims), org)
    ensures OrgsOf(Scopes(url, NormalForms(url, claims))) == OrgsOf(Scopes(url, claims))
  {
    if claims != [] {
      var init, last := claims[..|claims| - 1], claims[|claims| - 1];
      assert claims == init + [last];
      NormalFormsScopes(url, init, org);
      FormScopes(url, last, org);
      ScopesConcat(url, init, [last]);
      ScopesConcat(url, NormalForms(url, init), FormOf(url, last));
      ProjectsOfConcat(Scopes(url, init), Scopes(url, [last]), org);
      OrgsOfConcat(Scopes(url, init), Scopes(url, [last]));
      ProjectsOfConcat(Scopes(url, NormalForms(url, init)), Scopes(url, FormOf(url, last)), org);
      OrgsOfConcat(Scopes(url, NormalForms(url, init)), Scopes(url, FormOf(url, last)));
    }
  }

  lemma DedupOrgs(f: string -> Scope, texts: seq<string>)
    ensures OrgsOf(ScopesBy(f, Dedup(texts))) == OrgsOf(ScopesBy(f, texts))
  {
    var d := Dedup(texts);
    forall o | o in OrgsOf(ScopesBy(f, texts))
      ensures o in OrgsOf(ScopesBy(f, d))
    {
      var k :| 0 <= k < |texts| && ScopesBy(f, texts)[k].0 == o;
      assert texts[k] in d;
      var j :| 0 <= j < |d| && d[j] == texts[k];
      assert ScopesBy(f, d)[j].0 == o;
    }
    forall o | o in OrgsOf(ScopesBy(f, d))
      ensures o in OrgsOf(ScopesBy(f, texts))
    {
      var j :| 0 <= j < |d| && ScopesBy(f, d)[j].0 == o;
      assert d[j] in texts;
      var k :| 0 <= k < |texts| && texts[k] == d[j];
      assert ScopesBy(f, texts)[k].0 == o;
    }
  }

  /**
   The map computed from claims has exactly the organizations that the claims name, each
   with the projects named under it, in order, each once.
   */
  lemma ClaimsMap(url: UrlPath, claims: seq<string>)
    requires KeepsPlain(url) && PlainList(claims)
    ensures var m := ListToMap(url, Dedup(NormalForms(url, claims)));
            && m.Keys == OrgsOf(Scopes(url, claims))
            && forall org :: org in m ==>
                 m[org] == Dedup(ProjectsOf(Scopes(url, claims), org)) && NoDup(m[org])
  {
    var forms := NormalForms(url, claims);
    var m := ListToMap(url, Dedup(forms));
    NormalFormsAreNormal(url, claims);
    DedupOrgs(Reader(url), forms);
    NormalFormsScopes(url, claims, "x");
    forall org | org in m
      ensures m[org] == Dedup(ProjectsOf(Scopes(url, claims), org)) && NoDup(m[org])
    {
      assert org != "";
      DedupProjects(url, forms, org);
      NormalFormsScopes(url, claims, org);
    }
  }

  lemma DedupProper(org: string, projects: seq<string>)
    ensures ProperEntry(org, Dedup(projects)) <==> ProperEntry(org, projects)
  {
    if projects != [] {
      assert projects[0] in Dedup(projects);
    }
  }

  lemma ReadsProper(url: UrlPath, paths: seq<string>)
    requires KeepsPlain(url) && PlainList(paths)
    ensures ProperMap(ListToMap(url, paths))
  {
    ListScopesProper(url, paths);
    MapOfProper(Scopes(url, paths));
  }

  /** One map is another with repeated projects dropped. */
  ghost predicate Deduped(back: map<string, seq<string>>, read: map<string, seq<string>>) {
    back.Keys == read.Keys && forall org :: org in back ==> back[org] == Dedup(read[org])
  }

  lemma ClaimsDeduped(url: UrlPath, claims: seq<string>)
    requires KeepsPlain(url) && PlainList(claims)
    ensures Deduped(ListToMap(url, Dedup(NormalForms(url, claims))), ListToMap(url, claims))
  {
    ClaimsMap(url, claims);
  }

  lemma DedupedEquals(m: map<string, seq<string>>, read: map<string, seq<string>>, back: map<string, seq<string>>)
    requires Deduped(back, read) && ProperMap(read)
    requires read == m <==> ProperMap(m)
    ensures back == m <==> ProperMap(m) && forall org :: org in m ==> NoDup(m[org])
  {
    if ProperMap(m) && forall org :: org in m ==> NoDup(m[org]) {
      forall org | org in m
        ensures back[org] == m[org]
      {
        DedupOfDistinct(m[org]);
      }
    }
    if back == m {
      forall org | org in m
        ensures ProperEntry(org, m[org])
      {
        DedupProper(org, read[org]);
      }
    }
  }

  /**
   The round trip through controlled-access claims, exactly: printing a map as claims and
   reading the claims back gives the same map if and only if the map is proper and lists no
   project twice under one organization.
   */
  lemma ClaimsRoundTrip(url: UrlPath, m: map<string, seq<string>>, order: seq<string>)
    requires KeepsPlain(url) && PlainMap(m) && Enumerates(order, m.Keys)
    ensures ListToMap(url, Dedup(NormalForms(url, Listing(m, order)))) == m
            <==> ProperMap(m) && forall org :: org in m ==> NoDup(m[org])
  {
    var list := Listing(m, order);
    ListingPlain(m, order);
    MapRoundTrip(url, m, order);
    ReadsProper(url, list);
    ClaimsDeduped(url, list);
    DedupedEquals(m, ListToMap(url, list), ListToMap(url, Dedup(NormalForms(url, list))));
  }

  /** A proper map that does not return: a project that is listed twice is claimed once. */
  lemma RepeatedProjectIsLost(url: UrlPath, m: map<string, seq<string>>)
    requires KeepsPlain(url) && m == map["o" := ["p", "p"]]
    ensures ListToMap(url, Dedup(NormalForms(url, Listing(m, ["o"])))) != m
  {
    assert m["o"][0] == m["o"][1];
    assert forall k :: k in ["o"] <==> k in m.Keys;
    ClaimsRoundTrip(url, m, ["o"]);
  }
}
