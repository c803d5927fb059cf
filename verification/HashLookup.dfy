/**
 Looking up and deleting records by hash, from client/services/drs_service.go, against a
 server whose queries and deletions may fail.
 */
module HashLookup {
  import opened Basics
  import opened Strings

  const SHA256_PREFIX := "sha256:"

  function NormalizeChecksum(raw: string): string {
    TrimSpace(TrimPrefix(TrimSpace(raw), SHA256_PREFIX))
  }

  lemma PrefixSurvivesTrim(rest: string)
    ensures SHA256_PREFIX <= TrimSpace(rest) <==> SHA256_PREFIX <= TrimLeft(rest, IsSpace)
  {
    var left := TrimLeft(rest, IsSpace);
    var tail := TrimRightPrefix(left, IsSpace);
    assert left == TrimSpace(rest) + tail;
    assert SHA256_PREFIX[|SHA256_PREFIX| - 1] == ':' && !IsSpace(':');
  }

  /**
   Normalising is not idempotent: only one prefix is dropped at a time. A second pass changes
   nothing exactly if no second prefix follows the first, with or without spaces between them.
   */
  lemma NormalizeTwice(raw: string)
    ensures NormalizeChecksum(NormalizeChecksum(raw)) == NormalizeChecksum(raw)
            <==> !(SHA256_PREFIX <= TrimLeft(TrimPrefix(TrimSpace(raw), SHA256_PREFIX), IsSpace))
  {
    var rest := TrimPrefix(TrimSpace(raw), SHA256_PREFIX);
    var once := NormalizeChecksum(raw);
    PrefixSurvivesTrim(rest);
    TrimIdempotent(rest, IsSpace);
    assert TrimSpace(once) == once;
    TrimNotLonger(TrimPrefix(once, SHA256_PREFIX), IsSpace);
  }

  /** An input with two prefixes. */
  lemma TwoPrefixes(raw: string)
    requires raw == "sha256:sha256:a"
    ensures NormalizeChecksum(raw) == "sha256:a" && NormalizeChecksum("sha256:a") == "a"
  {
    assert raw == SHA256_PREFIX + "sha256:a" && "sha256:a" == SHA256_PREFIX + "a";
    TrimOfTrimmed(raw, IsSpace);
    TrimOfTrimmed("sha256:a", IsSpace);
    TrimOfTrimmed("a", IsSpace);
  }

  /** Every spelling of a checksum: spaces around it, and one prefix before it. */
  lemma SpelledChecksum(a: string, b: string, x: string, c: string)
    requires All(a, IsSpace) && All(b, IsSpace) && All(c, IsSpace) && x != "" && Trimmed(x, IsSpace)
    ensures NormalizeChecksum(a + ("sha256:" + b + x) + c) == x
    ensures !("sha256:" <= x) ==> NormalizeChecksum(a + x + c) == x
  {
    var spelled := "sha256:" + b + x;
    assert spelled[0] == 's' && spelled[|spelled| - 1] == x[|x| - 1];
    TrimAround(a, spelled, c, IsSpace);
    assert spelled == SHA256_PREFIX + (b + x);
    assert TrimPrefix(spelled, SHA256_PREFIX) == b + x;
    TrimAround(b, x, "", IsSpace);
    assert b + x + "" == b + x;
    TrimAround(a, x, c, IsSpace);
    TrimOfTrimmed(x, IsSpace);
  }

  // ---------- queries ----------

  /** `rest` stands for everything but the id. */
  datatype DrsObject = DrsObject(id: string, rest: string)

  /** The answer to a query by checksum: no answer, an error status, a body without a result, or a result. */
  datatype Reply = Unreachable | Refused | Incomplete | Found(objects: seq<DrsObject>)

  datatype LookupError = LookupError(checksum: string, reply: Reply)

  type Lookup = string -> Reply

  function QueryOf(hash: string): seq<string> {
    var checksum := NormalizeChecksum(hash);
    if checksum == "" then [] else [checksum]
  }

  /** What is asked for a list of hashes: blank ones are skipped. */
  function Queries(hashes: seq<string>): seq<string> {
    if hashes == [] then [] else QueryOf(hashes[0]) + Queries(hashes[1..])
  }

  /** The first query without a result, if there is one. */
  function FirstFailure(lookup: Lookup, queries: seq<string>): Option<LookupError> {
    if queries == [] then None
    else if !lookup(queries[0]).Found? then Some(LookupError(queries[0], lookup(queries[0])))
    else FirstFailure(lookup, queries[1..])
  }

  function ObjectsIn(reply: Reply): seq<DrsObject> {
    if reply.Found? then reply.objects else []
  }

  function AllFound(lookup: Lookup, queries: seq<string>): seq<DrsObject> {
    if queries == [] then []
    else ObjectsIn(lookup(queries[0])) + AllFound(lookup, queries[1..])
  }

  function Ids(objects: seq<DrsObject>): (r: seq<string>)
    ensures |r| == |objects|
  {
    seq(|objects|, i requires 0 <= i < |objects| => TrimSpace(objects[i].id))
  }

  /** Of the objects with one trimmed id, the first. */
  function DedupById(objects: seq<DrsObject>): seq<DrsObject> {
    if objects == [] then []
    else
      var init, last := objects[..|objects| - 1], objects[|objects| - 1];
      if TrimSpace(last.id) in Ids(init) then DedupById(init) else DedupById(init) + [last]
  }

  lemma IdsAppend(objects: seq<DrsObject>, o: DrsObject)
    ensures Ids(objects + [o]) == Ids(objects) + [TrimSpace(o.id)]
  {
  }

  /** Dropping objects by id drops exactly the repeated ids, and keeps the order. */
  lemma {:induction false} DedupByIdIds(objects: seq<DrsObject>)
    ensures Ids(DedupById(objects)) == Dedup(Ids(objects))
    ensures forall o :: o in DedupById(objects) ==> o in objects
  {
    if objects != [] {
      var init, last := objects[..|objects| - 1], objects[|objects| - 1];
      assert objects == init + [last];
      DedupByIdIds(init);
      IdsAppend(init, last);
      IdsAppend(DedupById(init), last);
      DedupAppend(Ids(init), TrimSpace(last.id));
    }
  }

  /** The page and the ids seen after a number of objects. */
  ghost predicate PageAt(objects: seq<DrsObject>, page: seq<DrsObject>, seen: set<string>) {
    page == DedupById(objects) && seen == SetOf(Ids(objects))
  }

  /** What one more object changes. */
  lemma OneMore(objects: seq<DrsObject>, o: DrsObject, page: seq<DrsObject>, seen: set<string>)
    requires PageAt(objects, page, seen)
    ensures var id := TrimSpace(o.id);
            if id in seen then PageAt(objects + [o], page, seen) else PageAt(objects + [o], page + [o], seen + {id})
  {
    assert (objects + [o])[..|objects|] == objects;
    IdsAppend(objects, o);
    SetOfAppend(Ids(objects), TrimSpace(o.id));
    if TrimSpace(o.id) in seen {
      assert seen + {TrimSpace(o.id)} == seen;
    }
  }

  /** The answer to a batch: everything found, once per id, or the first failure. */
  function Batch(lookup: Lookup, hashes: seq<string>): Result<seq<DrsObject>, LookupError> {
    match FirstFailure(lookup, Queries(hashes))
    case Some(error) => Err(error)
    case None => Ok(DedupById(AllFound(lookup, Queries(hashes))))
  }

  lemma {:induction false} FirstFailureConcat(lookup: Lookup, a: seq<string>, b: seq<string>)
    ensures FirstFailure(lookup, a + b) ==
            if FirstFailure(lookup, a).Some? then FirstFailure(lookup, a) else FirstFailure(lookup, b)
  {
    if a == [] {
      assert a + b == b;
    } else {
      assert (a + b)[1..] == a[1..] + b;
      FirstFailureConcat(lookup, a[1..], b);
    }
  }

  lemma {:induction false} AllFoundConcat(lookup: Lookup, a: seq<string>, b: seq<string>)
    ensures AllFound(lookup, a + b) == AllFound(lookup, a) + AllFound(lookup, b)
  {
    if a == [] {
      assert a + b == b;
    } else {
      assert (a + b)[1..] == a[1..] + b;
      AllFoundConcat(lookup, a[1..], b);
      var head, rest := ObjectsIn(lookup(a[0])), AllFound(lookup, a[1..]);
      assert head + (rest + AllFound(lookup, b)) == (head + rest) + AllFound(lookup, b);
    }
  }

  lemma {:induction false} QueriesConcat(a: seq<string>, b: seq<string>)
    ensures Queries(a + b) == Queries(a) + Queries(b)
  {
    if a == [] {
      assert a + b == b;
    } else {
      assert (a + b)[1..] == a[1..] + b;
      QueriesConcat(a[1..], b);
    }
  }

  /** The inner loop: the objects of one reply whose ids are new. */
  method AppendNew(page: seq<DrsObject>, seen: set<string>, objects: seq<DrsObject>, ghost before: seq<DrsObject>)
    returns (page': seq<DrsObject>, seen': set<string>)
    requires PageAt(before, page, seen)
    ensures PageAt(before + objects, page', seen')
  {
    page', seen' := page, seen;
    ghost var all := before;
    assert before + objects[..0] == before;
    for k := 0 to |objects|
      invariant all == before + objects[..k]
      invariant PageAt(all, page', seen')
    {
      OneMore(all, objects[k], page', seen');
      assert before + objects[..k + 1] == all + [objects[k]];
      all := all + [objects[k]];
      var id := TrimSpace(objects[k].id);
      if id in seen' {
        continue;
      }
      seen' := seen' + {id};
      page' := page' + [objects[k]];
    }
    assert objects[..|objects|] == objects;
  }

  /** What one more hash changes, as long as nothing failed. */
  lemma OneMoreHash(lookup: Lookup, hashes: seq<string>, hash: string)
    requires FirstFailure(lookup, Queries(hashes)).None?
    ensures var checksum := NormalizeChecksum(hash);
            var all := Queries(hashes + [hash]);
            if checksum == "" then all == Queries(hashes)
            else if lookup(checksum).Found? then
              && FirstFailure(lookup, all).None?
              && AllFound(lookup, all) == AllFound(lookup, Queries(hashes)) + lookup(checksum).objects
            else FirstFailure(lookup, all) == Some(LookupError(checksum, lookup(checksum)))
  {
    QueriesConcat(hashes, [hash]);
    assert Queries([hash]) == QueryOf(hash) + [] == QueryOf(hash);
    FirstFailureConcat(lookup, Queries(hashes), QueryOf(hash));
    AllFoundConcat(lookup, Queries(hashes), QueryOf(hash));
    var checksum := NormalizeChecksum(hash);
    if checksum != "" {
      assert [checksum][1..] == [];
      assert FirstFailure(lookup, []) == None && AllFound(lookup, []) == [];
      if lookup(checksum).Found? {
        assert AllFound(lookup, [checksum]) == lookup(checksum).objects + [] == lookup(checksum).objects;
      }
    }
  }

  /** A failure is final. */
  lemma FailureStays(lookup: Lookup, hashes: seq<string>, k: nat)
    requires k <= |hashes| && FirstFailure(lookup, Queries(hashes[..k])).Some?
    ensures FirstFailure(lookup, Queries(hashes)) == FirstFailure(lookup, Queries(hashes[..k]))
  {
    assert hashes == hashes[..k] + hashes[k..];
    QueriesConcat(hashes[..k], hashes[k..]);
    FirstFailureConcat(lookup, Queries(hashes[..k]), Queries(hashes[k..]));
  }

  /** The loop's state after the given hashes, none of which failed. */
  ghost predicate BatchAt(lookup: Lookup, hashes: seq<string>, found: seq<DrsObject>) {
    FirstFailure(lookup, Queries(hashes)).None? && found == AllFound(lookup, Queries(hashes))
  }

  /** What one more hash does to that state. */
  lemma BatchStep(lookup: Lookup, hashes: seq<string>, k: nat, found: seq<DrsObject>)
    requires k < |hashes| && BatchAt(lookup, hashes[..k], found)
    ensures var checksum := NormalizeChecksum(hashes[k]);
            if checksum == "" then BatchAt(lookup, hashes[..k + 1], found)
            else if lookup(checksum).Found? then BatchAt(lookup, hashes[..k + 1], found + lookup(checksum).objects)
            else Batch(lookup, hashes) == Err(LookupError(checksum, lookup(checksum)))
  {
    assert hashes[..k + 1] == hashes[..k] + [hashes[k]];
    OneMoreHash(lookup, hashes[..k], hashes[k]);
    if FirstFailure(lookup, Queries(hashes[..k + 1])).Some? {
      FailureStays(lookup, hashes, k + 1);
    }
  }

  lemma BatchEnd(lookup: Lookup, hashes: seq<string>, found: seq<DrsObject>)
    requires BatchAt(lookup, hashes[..|hashes|], found)
    ensures Batch(lookup, hashes) == Ok(DedupById(found))
  {
    assert hashes[..|hashes|] == hashes;
  }

  method BatchGetObjectsByHash(lookup: Lookup, hashes: seq<string>) returns (r: Result<seq<DrsObject>, LookupError>)
    ensures r == Batch(lookup, hashes)
  {
    var page: seq<DrsObject>, seen: set<string> := [], {};
    ghost var found: seq<DrsObject> := [];
    for k := 0 to |hashes|
      invariant BatchAt(lookup, hashes[..k], found)
      invariant PageAt(found, page, seen)
    {
      BatchStep(lookup, hashes, k, found);
      var checksum := NormalizeChecksum(hashes[k]);
      if checksum == "" {
        continue;
      }
      var reply := lookup(checksum);
      if !reply.Found? {
        return Err(LookupError(checksum, reply));
      }
      page, seen := AppendNew(page, seen, reply.objects, found);
      found := found + reply.objects;
    }
    BatchEnd(lookup, hashes, found);
    return Ok(page);
  }

  /** The k-th hash asks for something, and the lookup of it fails. */
  ghost predicate FailsAt(lookup: Lookup, hashes: seq<string>, k: int) {
    0 <= k < |hashes| && NormalizeChecksum(hashes[k]) != "" && !lookup(NormalizeChecksum(hashes[k])).Found?
  }

  /** A batch fails with the first lookup that fails, if one does; blank hashes are not looked up. */
  lemma {:induction false} BatchFails(lookup: Lookup, hashes: seq<string>) returns (k: nat)
    ensures k <= |hashes| && forall j :: 0 <= j < k ==> !FailsAt(lookup, hashes, j)
    ensures if k == |hashes| then Batch(lookup, hashes).Ok?
            else FailsAt(lookup, hashes, k)
                 && var q := NormalizeChecksum(hashes[k]); Batch(lookup, hashes) == Err(LookupError(q, lookup(q)))
  {
    k := 0;
    if hashes != [] && !FailsAt(lookup, hashes, 0) {
      var rest := hashes[1..];
      var j := BatchFails(lookup, rest);
      k := j + 1;
      FirstFailureConcat(lookup, QueryOf(hashes[0]), Queries(rest));
      assert FirstFailure(lookup, QueryOf(hashes[0])).None?;
      forall i | 0 <= i < k
        ensures !FailsAt(lookup, hashes, i)
      {
        assert i > 0 ==> (FailsAt(lookup, hashes, i) <==> FailsAt(lookup, rest, i - 1));
      }
    }
  }

  lemma QueryFound(lookup: Lookup, hash: string)
    ensures var q := NormalizeChecksum(hash);
            AllFound(lookup, QueryOf(hash)) == if q == "" then [] else ObjectsIn(lookup(q))
  {
    var q := NormalizeChecksum(hash);
    if q != "" {
      assert [q][1..] == [];
      assert ObjectsIn(lookup(q)) + [] == ObjectsIn(lookup(q));
    }
  }

  /** What a batch finds: the objects listed for some hash that asks for something. */
  lemma {:induction false} FoundMembers(lookup: Lookup, hashes: seq<string>, o: DrsObject)
    ensures o in AllFound(lookup, Queries(hashes)) <==>
            exists h :: h in hashes && NormalizeChecksum(h) != "" && o in ObjectsIn(lookup(NormalizeChecksum(h)))
  {
    if hashes != [] {
      FoundMembers(lookup, hashes[1..], o);
      AllFoundConcat(lookup, QueryOf(hashes[0]), Queries(hashes[1..]));
      QueryFound(lookup, hashes[0]);
      assert hashes == [hashes[0]] + hashes[1..];
    }
  }

  /** Of several objects with one id, the first is kept. */
  lemma {:induction false} FirstIsKept(objects: seq<DrsObject>, o: DrsObject) returns (k: nat)
    requires o in DedupById(objects)
    ensures k < |objects| && objects[k] == o
    ensures forall i :: 0 <= i < k ==> TrimSpace(objects[i].id) != TrimSpace(o.id)
  {
    var init, last := objects[..|objects| - 1], objects[|objects| - 1];
    assert objects == init + [last];
    if o in DedupById(init) {
      k := FirstIsKept(init, o);
    } else {
      k := |init|;
      assert forall i :: 0 <= i < k ==> Ids(init)[i] == TrimSpace(init[i].id);
    }
  }

  // ---------- deletions ----------

  datatype Record = Record(hashes: set<string>)

  /** The server: its records by id, and the deletions it carried out, in order. */
  class Index {
    var records: map<string, Record>
    var deletions: seq<string>

    constructor (records: map<string, Record>)
      ensures this.records == records && deletions == []
    {
      this.records, deletions := records, [];
    }

    /** `accepts` says for which ids a deletion works today. */
    method Delete(accepts: string -> bool, did: string) returns (ok: bool)
      modifies this
      ensures ok == accepts(did)
      ensures records == if ok then old(records) - {did} else old(records)
      ensures deletions == if ok then old(deletions) + [did] else old(deletions)
    {
      ok := accepts(did);
      if ok {
        records := records - {did};
        deletions := deletions + [did];
      }
    }
  }

  datatype DeleteError =
    | LookupFailed(error: LookupError)
    | NoRecords
    | NothingDeletable
    | DeleteFailed(did: string)

  function NonBlank(ids: seq<string>): seq<string> {
    if ids == [] then []
    else
      var init, last := ids[..|ids| - 1], ids[|ids| - 1];
      NonBlank(init) + if last == "" then [] else [last]
  }

  lemma {:induction false} NonBlankFacts(ids: seq<string>)
    ensures forall id :: id in NonBlank(ids) <==> id in ids && id != ""
    ensures NoDup(ids) ==> NoDup(NonBlank(ids))
  {
    if ids != [] {
      var init, last := ids[..|ids| - 1], ids[|ids| - 1];
      assert ids == init + [last];
      NonBlankFacts(init);
      assert last in NonBlank(init) ==> last in init;
      assert NoDup(ids) ==> last !in init;
    }
  }

  /** How many ids, from the front, can be deleted without a failure. */
  function Accepted(accepts: string -> bool, dids: seq<string>): (j: nat)
    ensures j <= |dids|
    ensures forall i :: 0 <= i < j ==> accepts(dids[i])
    ensures j < |dids| ==> !accepts(dids[j])
  {
    if dids == [] || !accepts(dids[0]) then 0 else 1 + Accepted(accepts, dids[1..])
  }

  /** The ids a request to delete by hash is about. */
  function Targets(page: seq<DrsObject>): seq<string> {
    NonBlank(Ids(page))
  }

  /** The ids of a page never repeat, so the second duplicate check of the source cannot fire. */
  lemma TargetsDistinct(lookup: Lookup, hashes: seq<string>)
    requires Batch(lookup, hashes).Ok?
    ensures NoDup(Ids(Batch(lookup, hashes).value)) && NoDup(Targets(Batch(lookup, hashes).value))
  {
    DedupByIdIds(AllFound(lookup, Queries(hashes)));
    NonBlankFacts(Ids(Batch(lookup, hashes).value));
  }

  datatype Outcome = Outcome(records: map<string, Record>, deleted: seq<string>, error: Option<DeleteError>)

  /** What deleting the targets of a page leaves behind. */
  function PageOutcome(accepts: string -> bool, records: map<string, Record>, page: seq<DrsObject>): Outcome {
    var dids := Targets(page);
    var deleted := dids[..Accepted(accepts, dids)];
    Outcome(
      records - SetOf(deleted), deleted,
      if |deleted| < |dids| then Some(DeleteFailed(dids[|deleted|]))
      else if dids == [] then Some(NothingDeletable) else None)
  }

  /** What a deletion by hash leaves behind. */
  function DeletionOutcome(lookup: Lookup, accepts: string -> bool, records: map<string, Record>, hash: string): Outcome {
    match Batch(lookup, [NormalizeChecksum(hash)])
    case Err(error) => Outcome(records, [], Some(LookupFailed(error)))
    case Ok(page) => if page == [] then Outcome(records, [], Some(NoRecords)) else PageOutcome(accepts, records, page)
  }

  ghost predicate AllAccepted(accepts: string -> bool, dids: seq<string>) {
    forall i :: 0 <= i < |dids| ==> accepts(dids[i])
  }

  lemma AllAcceptedCount(accepts: string -> bool, dids: seq<string>)
    requires AllAccepted(accepts, dids)
    ensures Accepted(accepts, dids) == |dids| && dids[..|dids|] == dids
  {
  }

  /** What one more id changes in the distinct non-blank ids. */
  lemma NonBlankAppend(ids: seq<string>, k: nat)
    requires k < |ids|
    ensures var done := Dedup(NonBlank(ids[..k]));
            Dedup(NonBlank(ids[..k + 1])) == if ids[k] == "" || ids[k] in SetOf(done) then done else done + [ids[k]]
  {
    assert ids[..k + 1][..k] == ids[..k] && ids[..k + 1][k] == ids[k];
    if ids[k] == "" {
      assert NonBlank(ids[..k + 1]) == NonBlank(ids[..k]) + [] == NonBlank(ids[..k]);
    } else {
      DedupAppend(NonBlank(ids[..k]), ids[k]);
    }
  }

  lemma DistinctSoFar(ids: seq<string>, k: nat)
    requires k <= |ids| && NoDup(ids)
    ensures Dedup(NonBlank(ids[..k])) == NonBlank(ids[..k])
  {
    assert NoDup(ids[..k]);
    NonBlankFacts(ids[..k]);
    DedupOfDistinct(NonBlank(ids[..k]));
  }

  lemma AcceptedIs(accepts: string -> bool, dids: seq<string>, j: nat)
    requires j < |dids| && AllAccepted(accepts, dids[..j]) && !accepts(dids[j])
    ensures Accepted(accepts, dids) == j
  {
    assert forall i :: 0 <= i < j ==> dids[..j][i] == dids[i];
  }

  lemma {:induction false} NonBlankPrefix(ids: seq<string>, k: nat)
    requires k <= |ids|
    ensures NonBlank(ids[..k]) <= NonBlank(ids)
    decreases |ids|
  {
    if k == |ids| {
      assert ids[..k] == ids;
    } else {
      var init := ids[..|ids| - 1];
      assert init[..k] == ids[..k];
      NonBlankPrefix(init, k);
    }
  }

  /** At the first refusal, what was done so far is exactly the accepted front of the targets. */
  lemma DoneIsPrefix(accepts: string -> bool, ids: seq<string>, k: nat, done: seq<string>, did: string)
    requires k < |ids| && did == ids[k] && did != "" && !accepts(did)
    requires done == NonBlank(ids[..k]) && AllAccepted(accepts, done)
    ensures Accepted(accepts, NonBlank(ids)) == |done| < |NonBlank(ids)|
    ensures NonBlank(ids)[..|done|] == done && NonBlank(ids)[|done|] == did
  {
    var dids := NonBlank(ids);
    assert NonBlank(ids[..k + 1]) == done + [did] by {
      assert ids[..k + 1][..k] == ids[..k] && ids[..k + 1][k] == did;
    }
    NonBlankPrefix(ids, k + 1);
    assert done + [did] <= dids;
    assert dids[|done|] == (done + [did])[|done|];
    assert dids[..|done|] == done;
    AcceptedIs(accepts, dids, |done|);
  }

  /** The loop's state after the first k objects: the targets among them, all deleted. */
  ghost predicate DoneAt(accepts: string -> bool, page: seq<DrsObject>, k: nat, done: seq<string>) {
    k <= |page| && done == Dedup(NonBlank(Ids(page)[..k])) && AllAccepted(accepts, done)
  }

  lemma DoneStep(accepts: string -> bool, page: seq<DrsObject>, k: nat, done: seq<string>)
    requires k < |page| && DoneAt(accepts, page, k, done)
    ensures var did := TrimSpace(page[k].id);
            if did == "" || did in SetOf(done) then DoneAt(accepts, page, k + 1, done)
            else accepts(did) ==> DoneAt(accepts, page, k + 1, done + [did])
  {
    NonBlankAppend(Ids(page), k);
  }

  lemma DoneFails(accepts: string -> bool, page: seq<DrsObject>, k: nat, done: seq<string>)
    requires k < |page| && DoneAt(accepts, page, k, done) && NoDup(Ids(page))
    requires TrimSpace(page[k].id) != "" && !accepts(TrimSpace(page[k].id))
    ensures var dids := Targets(page);
            && Accepted(accepts, dids) == |done| < |dids|
            && dids[..|done|] == done && dids[|done|] == TrimSpace(page[k].id)
  {
    DistinctSoFar(Ids(page), k);
    DoneIsPrefix(accepts, Ids(page), k, done, TrimSpace(page[k].id));
  }

  lemma DoneEnds(accepts: string -> bool, page: seq<DrsObject>, done: seq<string>)
    requires DoneAt(accepts, page, |page|, done) && NoDup(Ids(page))
    ensures Accepted(accepts, Targets(page)) == |Targets(page)| && Targets(page)[..|Targets(page)|] == done == Targets(page)
  {
    assert Ids(page)[..|page|] == Ids(page);
    NonBlankFacts(Ids(page));
    DedupOfDistinct(Targets(page));
    AllAcceptedCount(accepts, done);
  }

  lemma RemovedOneMore(records: map<string, Record>, done: seq<string>, did: string)
    ensures SetOf(done + [did]) == SetOf(done) + {did}
    ensures records - SetOf(done) - {did} == records - SetOf(done + [did])
  {
    SetOfAppend(done, did);
  }

  lemma LogOneMore(log: seq<string>, done: seq<string>, did: string)
    ensures log + done + [did] == log + (done + [did])
  {
  }

  lemma OutcomeAtRefusal(accepts: string -> bool, records: map<string, Record>, page: seq<DrsObject>, k: nat, done: seq<string>)
    requires k < |page| && DoneAt(accepts, page, k, done) && NoDup(Ids(page))
    requires TrimSpace(page[k].id) != "" && !accepts(TrimSpace(page[k].id))
    ensures PageOutcome(accepts, records, page) ==
            Outcome(records - SetOf(done), done, Some(DeleteFailed(TrimSpace(page[k].id))))
  {
    DoneFails(accepts, page, k, done);
  }

  lemma OutcomeAtEnd(accepts: string -> bool, records: map<string, Record>, page: seq<DrsObject>, done: seq<string>)
    requires DoneAt(accepts, page, |page|, done) && NoDup(Ids(page))
    ensures PageOutcome(accepts, records, page) ==
            Outcome(records - SetOf(done), done, if SetOf(done) == {} then Some(NothingDeletable) else None)
  {
    DoneEnds(accepts, page, done);
    SetOfEmpty(done);
  }

  /** The second half: deletes what a non-empty page lists. */
  method DeletePage(index: Index, accepts: string -> bool, page: seq<DrsObject>) returns (error: Option<DeleteError>)
    requires NoDup(Ids(page))
    modifies index
    ensures var outcome := PageOutcome(accepts, old(index.records), page);
            && index.records == outcome.records
            && index.deletions == old(index.deletions) + outcome.deleted
            && error == outcome.error
  {
    ghost var done: seq<string> := [];
    var seen: set<string> := {};
    for k := 0 to |page|
      invariant DoneAt(accepts, page, k, done) && seen == SetOf(done)
      invariant index.records == old(index.records) - SetOf(done)
      invariant index.deletions == old(index.deletions) + done
    {
      var did := TrimSpace(page[k].id);
      DoneStep(accepts, page, k, done);
      if did == "" {
        continue;
      }
      if did in seen {
        continue;
      }
      seen := seen + {did};
      var ok := index.Delete(accepts, did);
      if !ok {
        OutcomeAtRefusal(accepts, old(index.records), page, k, done);
        return Some(DeleteFailed(did));
      }
      RemovedOneMore(old(index.records), done, did);
      LogOneMore(old(index.deletions), done, did);
      done := done + [did];
    }
    OutcomeAtEnd(accepts, old(index.records), page, done);
    if |seen| == 0 {
      return Some(NothingDeletable);
    }
    return None;
  }

  method DeleteRecordsByHash(index: Index, lookup: Lookup, accepts: string -> bool, hash: string)
    returns (error: Option<DeleteError>)
    modifies index
    ensures var outcome := DeletionOutcome(lookup, accepts, old(index.records), hash);
            && index.records == outcome.records
            && index.deletions == old(index.deletions) + outcome.deleted
            && error == outcome.error
  {
    var checksum := NormalizeChecksum(hash);
    var r := BatchGetObjectsByHash(lookup, [checksum]);
    if r.Err? {
      return Some(LookupFailed(r.error));
    }
    var page := r.value;
    if |page| == 0 {
      return Some(NoRecords);
    }
    TargetsDistinct(lookup, [checksum]);
    error := DeletePage(index, accepts, page);
  }

  // ---------- what deleting by hash achieves ----------

  ghost predicate Exact(objects: seq<DrsObject>, records: map<string, Record>, q: string) {
    forall id :: id in Ids(objects) <==> id in records && q in records[id].hashes
  }

  /** The server answers a query with exactly the records that carry the hash, and stores trimmed ids. */
  ghost predicate Complete(lookup: Lookup, records: map<string, Record>) {
    && (forall id :: id in records ==> Trimmed(id, IsSpace))
    && (forall q :: lookup(q).Found? ==> Exact(lookup(q).objects, records, q))
  }

  /**
   The outcome of a deletion whose targets are known, in order: each is deleted once, either
   all of them or exactly those before the refused one.
   */
  ghost predicate Removes(accepts: string -> bool, records: map<string, Record>, targets: seq<string>, outcome: Outcome) {
    && NoDup(outcome.deleted) && outcome.deleted <= targets && AllAccepted(accepts, outcome.deleted)
    && outcome.records == records - SetOf(outcome.deleted)
    && (match outcome.error
        case None => outcome.deleted == targets != []
        case Some(DeleteFailed(did)) =>
          |outcome.deleted| < |targets| && did == targets[|outcome.deleted|] && did !in outcome.deleted && !accepts(did)
        case _ => outcome.deleted == [])
  }

  lemma PageRemoves(accepts: string -> bool, records: map<string, Record>, page: seq<DrsObject>)
    requires NoDup(Targets(page))
    ensures Removes(accepts, records, Targets(page), PageOutcome(accepts, records, page))
  {
    var dids := Targets(page);
    var j := Accepted(accepts, dids);
    assert j == |dids| ==> dids[..j] == dids;
  }

  /** The records a deletion by hash is about: a non-blank id, and the hash that is asked for, if any is. */
  ghost function Carriers(records: map<string, Record>, hash: string): set<string> {
    var q := NormalizeChecksum(NormalizeChecksum(hash));
    set id | id in records && id != "" && q != "" && q in records[id].hashes
  }

  /** The targets are exactly the records with a non-blank id that carry the hash that was asked for. */
  lemma TargetsAreCarriers(lookup: Lookup, records: map<string, Record>, checksum: string)
    requires Complete(lookup, records) && Batch(lookup, [checksum]).Ok?
    ensures var q := NormalizeChecksum(checksum);
            var page := Batch(lookup, [checksum]).value;
            if q == "" then page == []
            else forall id :: id in Targets(page) <==> id != "" && id in records && q in records[id].hashes
  {
    var q := NormalizeChecksum(checksum);
    var page := Batch(lookup, [checksum]).value;
    OneMoreHash(lookup, [], checksum);
    assert [] + [checksum] == [checksum];
    if q != "" {
      var found := lookup(q).objects;
      assert [] + found == found;
      DedupByIdIds(found);
      NonBlankFacts(Ids(page));
      assert Exact(found, records, q);
      assert forall id :: id in Dedup(Ids(found)) <==> id in Ids(found);
    }
  }

  /** What the server lists for a hash, in order; nothing if the lookup fails. */
  function Listed(lookup: Lookup, hash: string): seq<string> {
    match Batch(lookup, [NormalizeChecksum(hash)])
    case Err(_) => []
    case Ok(page) => Targets(page)
  }

  lemma ListedAreCarriers(lookup: Lookup, records: map<string, Record>, hash: string)
    requires Complete(lookup, records) && Batch(lookup, [NormalizeChecksum(hash)]).Ok?
    ensures NoDup(Listed(lookup, hash)) && SetOf(Listed(lookup, hash)) == Carriers(records, hash)
  {
    TargetsDistinct(lookup, [NormalizeChecksum(hash)]);
    TargetsAreCarriers(lookup, records, NormalizeChecksum(hash));
    forall id
      ensures id in SetOf(Listed(lookup, hash)) <==> id in Carriers(records, hash)
    {
    }
  }

  lemma OutcomeRemoves(lookup: Lookup, accepts: string -> bool, records: map<string, Record>, hash: string)
    ensures Removes(accepts, records, Listed(lookup, hash), DeletionOutcome(lookup, accepts, records, hash))
  {
    var hashes := [NormalizeChecksum(hash)];
    if Batch(lookup, hashes).Ok? {
      TargetsDistinct(lookup, hashes);
      PageRemoves(accepts, records, Batch(lookup, hashes).value);
    }
  }

  /**
   Deletion by hash against a server that answers completely. Unless the lookup fails, what
   the server lists are the carriers of the hash, each once. Nothing else is deleted. Without
   an error all carriers are gone; at a refusal exactly those listed before the refused one
   are gone; after any other error the index is as before.
   */
  lemma DeletionRemovesExactly(lookup: Lookup, accepts: string -> bool, records: map<string, Record>, hash: string)
    requires Complete(lookup, records)
    ensures Removes(accepts, records, Listed(lookup, hash), DeletionOutcome(lookup, accepts, records, hash))
    ensures Batch(lookup, [NormalizeChecksum(hash)]).Ok? ==>
              NoDup(Listed(lookup, hash)) && SetOf(Listed(lookup, hash)) == Carriers(records, hash)
  {
    OutcomeRemoves(lookup, accepts, records, hash);
    if Batch(lookup, [NormalizeChecksum(hash)]).Ok? {
      ListedAreCarriers(lookup, records, hash);
    }
  }

  /** A blank hash deletes nothing. */
  lemma BlankHashDeletesNothing(lookup: Lookup, accepts: string -> bool, records: map<string, Record>, hash: string)
    requires NormalizeChecksum(NormalizeChecksum(hash)) == ""
    ensures DeletionOutcome(lookup, accepts, records, hash) == Outcome(records, [], Some(NoRecords))
  {
    assert Queries([NormalizeChecksum(hash)]) == [];
  }

  // ---------- which error comes when ----------

  /** The non-blank ids among the objects. */
  ghost predicate HasId(objects: seq<DrsObject>, id: string) {
    id != "" && id in Ids(objects)
  }

  /** Looking up one hash. */
  lemma OneLookup(lookup: Lookup, checksum: string)
    ensures var q := NormalizeChecksum(checksum);
            var r := Batch(lookup, [checksum]);
            if q == "" then r == Ok([])
            else if !lookup(q).Found? then r == Err(LookupError(q, lookup(q)))
            else r == Ok(DedupById(lookup(q).objects))
  {
    var q := NormalizeChecksum(checksum);
    OneMoreHash(lookup, [], checksum);
    assert [] + [checksum] == [checksum];
    if q != "" && lookup(q).Found? {
      assert [] + lookup(q).objects == lookup(q).objects;
    }
  }

  lemma KeptIds(objects: seq<DrsObject>)
    ensures DedupById(objects) == [] <==> objects == []
    ensures forall id :: id in Targets(DedupById(objects)) <==> HasId(objects, id)
  {
    DedupByIdIds(objects);
    NonBlankFacts(Ids(DedupById(objects)));
    assert forall id :: id in Dedup(Ids(objects)) <==> id in Ids(objects);
    if objects != [] {
      assert Ids(objects)[0] in Ids(DedupById(objects));
    }
  }

  /** The end of a deletion of these objects, by what they and the server are. */
  lemma PageErrors(accepts: string -> bool, records: map<string, Record>, objects: seq<DrsObject>)
    ensures var error := PageOutcome(accepts, records, DedupById(objects)).error;
            && (error == None <==> (exists id :: HasId(objects, id)) && forall id :: HasId(objects, id) ==> accepts(id))
            && (error == Some(NothingDeletable) <==> forall id :: !HasId(objects, id))
            && (error.Some? && error.value.DeleteFailed? <==> exists id :: HasId(objects, id) && !accepts(id))
            && (error.Some? ==> error.value.NothingDeletable? || error.value.DeleteFailed?)
  {
    var dids := Targets(DedupById(objects));
    var j := Accepted(accepts, dids);
    KeptIds(objects);
    if j < |dids| {
      assert dids[j] in dids && HasId(objects, dids[j]);
      assert dids[..j] != dids;
    } else {
      assert dids[..j] == dids;
      forall id | HasId(objects, id)
        ensures accepts(id)
      {
        var i :| 0 <= i < |dids| && dids[i] == id;
      }
      if dids != [] {
        assert HasId(objects, dids[0]);
      }
    }
  }

  /**
   Which error a deletion by hash reports, exactly: the failed lookup; no records for a blank
   hash and for an empty answer; nothing deletable if all ids are blank; the refused deletion if
   some listed id is refused; and none if there is an id and all of them are accepted.
   */
  lemma DeletionErrors(lookup: Lookup, accepts: string -> bool, records: map<string, Record>, hash: string)
    ensures var q := NormalizeChecksum(NormalizeChecksum(hash));
            var reply := lookup(q);
            var error := DeletionOutcome(lookup, accepts, records, hash).error;
            && (error.Some? && error.value.LookupFailed? <==> q != "" && !reply.Found?)
            && (q != "" && !reply.Found? ==> error == Some(LookupFailed(LookupError(q, reply))))
            && (error == Some(NoRecords) <==> q == "" || (reply.Found? && reply.objects == []))
            && (q != "" && reply.Found? && reply.objects != [] ==>
                  && (error == None <==>
                        (exists id :: HasId(reply.objects, id)) && forall id :: HasId(reply.objects, id) ==> accepts(id))
                  && (error == Some(NothingDeletable) <==> forall id :: !HasId(reply.objects, id))
                  && (error.Some? && error.value.DeleteFailed? <==> exists id :: HasId(reply.objects, id) && !accepts(id)))
  {
    var checksum := NormalizeChecksum(hash);
    var q := NormalizeChecksum(checksum);
    OneLookup(lookup, checksum);
    if q != "" && lookup(q).Found? {
      KeptIds(lookup(q).objects);
      PageErrors(accepts, records, lookup(q).objects);
    }
  }
}
