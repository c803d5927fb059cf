/**
 The two encodings of an object's hashes: the map of client/hash/hash.go, and the checksum
 list that client/services/drs_service.go makes of it in whatever order Go visits the map.
 */
module Checksums {
  import opened Basics

  datatype Checksum = Checksum(typ: string, value: string)

  datatype HashInfo = HashInfo(md5: string, sha: string, sha256: string, sha512: string, crc: string, etag: string)

  const EMPTY := HashInfo("", "", "", "", "", "")

  const SUPPORTED: set<string> := {"sha1", "sha256", "sha512", "md5", "etag", "crc32c", "trunc512"}

  /** What a payload is once its JSON is parsed. */
  datatype Payload = Null | Hashes(hashes: map<string, string>) | List(checksums: seq<Checksum>) | Unsupported

  // ---------- list and map ----------

  /** The list form when the types are visited in the given order. */
  function Encoded(hashes: map<string, string>, order: seq<string>): (r: seq<Checksum>)
    requires forall t :: t in order ==> t in hashes
  {
    seq(|order|, i requires 0 <= i < |order| => Checksum(order[i], hashes[order[i]]))
  }

  /** The list is the list form of the map for some order of its types. */
  ghost predicate ListForm(hashes: map<string, string>, list: seq<Checksum>) {
    exists order :: Enumerates(order, hashes.Keys) && list == Encoded(hashes, order)
  }

  method ChecksumsOf(hashes: map<string, string>) returns (out: seq<Checksum>)
    ensures ListForm(hashes, out)
  {
    ghost var order: seq<string> := [];
    out := [];
    var rest := hashes.Keys;
    while rest != {}
      invariant rest <= hashes.Keys
      invariant Enumerates(order, hashes.Keys - rest)
      invariant out == Encoded(hashes, order)
      decreases |rest|
    {
      var typ :| typ in rest;
      EnumeratesMore(order, hashes.Keys - rest, typ);
      assert hashes.Keys - (rest - {typ}) == (hashes.Keys - rest) + {typ};
      out, order, rest := out + [Checksum(typ, hashes[typ])], order + [typ], rest - {typ};
    }
    assert hashes.Keys - {} == hashes.Keys;
  }

  /** The map form of a list: of several entries for one type the last counts. */
  function ToMap(checksums: seq<Checksum>): map<string, string> {
    if checksums == [] then map[]
    else
      var init, last := checksums[..|checksums| - 1], checksums[|checksums| - 1];
      ToMap(init)[last.typ := last.value]
  }

  method ConvertChecksumsToMap(checksums: seq<Checksum>) returns (result: map<string, string>)
    ensures result == ToMap(checksums)
  {
    result := map[];
    for k := 0 to |checksums|
      invariant result == ToMap(checksums[..k])
    {
      assert checksums[..k + 1][..k] == checksums[..k];
      result := result[checksums[k].typ := checksums[k].value];
    }
    assert checksums[..|checksums|] == checksums;
  }

  /** Position i holds the last entry of its type. */
  ghost predicate LastOfType(checksums: seq<Checksum>, i: int) {
    0 <= i < |checksums| && forall j :: i < j < |checksums| ==> checksums[j].typ != checksums[i].typ
  }

  lemma {:induction false} LastCounts(checksums: seq<Checksum>, i: int)
    requires LastOfType(checksums, i)
    ensures checksums[i].typ in ToMap(checksums) && ToMap(checksums)[checksums[i].typ] == checksums[i].value
  {
    var init := checksums[..|checksums| - 1];
    if i < |init| {
      assert forall j :: i < j < |init| ==> init[j] == checksums[j];
      LastCounts(init, i);
    }
  }

  lemma {:induction false} LastEntry(checksums: seq<Checksum>, t: string) returns (i: int)
    requires t in ToMap(checksums)
    ensures LastOfType(checksums, i) && checksums[i] == Checksum(t, ToMap(checksums)[t])
  {
    i := |checksums| - 1;
    if checksums[i].typ != t {
      i := LastEntry(checksums[..i], t);
    }
  }

  /** The map form holds exactly the last entry of each type. */
  lemma ToMapIsLast(checksums: seq<Checksum>, t: string)
    ensures t in ToMap(checksums) <==> exists i :: LastOfType(checksums, i) && checksums[i].typ == t
    ensures t in ToMap(checksums) ==>
              exists i :: LastOfType(checksums, i) && checksums[i] == Checksum(t, ToMap(checksums)[t])
  {
    forall i | LastOfType(checksums, i) && checksums[i].typ == t
      ensures t in ToMap(checksums)
    {
      LastCounts(checksums, i);
    }
    if t in ToMap(checksums) {
      var i := LastEntry(checksums, t);
    }
  }

  /** No type comes with two different values. */
  ghost predicate Consistent(checksums: seq<Checksum>) {
    forall c, d :: c in checksums && d in checksums && c.typ == d.typ ==> c.value == d.value
  }

  ghost predicate Permuted(s: seq<Checksum>, t: seq<Checksum>) {
    multiset(s) == multiset(t)
  }

  lemma SameMembers(s: seq<Checksum>, t: seq<Checksum>)
    requires Permuted(s, t)
    ensures forall c :: c in s <==> c in t
  {
    assert forall c :: c in s <==> c in multiset(s);
    assert forall c :: c in t <==> c in multiset(t);
  }

  lemma {:induction false} HasEntry(checksums: seq<Checksum>, c: Checksum)
    requires c in checksums
    ensures c.typ in ToMap(checksums)
  {
    var init, last := checksums[..|checksums| - 1], checksums[|checksums| - 1];
    assert checksums == init + [last];
    if c != last {
      HasEntry(init, c);
    }
  }

  lemma ConsistentLookup(checksums: seq<Checksum>, c: Checksum)
    requires Consistent(checksums) && c in checksums
    ensures c.typ in ToMap(checksums) && ToMap(checksums)[c.typ] == c.value
  {
    HasEntry(checksums, c);
    ToMapIsLast(checksums, c.typ);
  }

  lemma ConsistentPermuted(s: seq<Checksum>, t: seq<Checksum>)
    requires Consistent(s) && Permuted(t, s)
    ensures ToMap(t) == ToMap(s)
  {
    SameMembers(t, s);
    forall k
      ensures k in ToMap(t) <==> k in ToMap(s)
      ensures k in ToMap(s) ==> ToMap(t)[k] == ToMap(s)[k]
    {
      ToMapIsLast(s, k);
      ToMapIsLast(t, k);
      if k in ToMap(s) {
        ConsistentLookup(t, Checksum(k, ToMap(s)[k]));
      }
      if k in ToMap(t) {
        ConsistentLookup(s, Checksum(k, ToMap(t)[k]));
      }
    }
  }

  /** The list with one entry moved to its end. */
  function MovedLast(s: seq<Checksum>, i: nat): seq<Checksum>
    requires i < |s|
  {
    s[..i] + s[i + 1..] + [s[i]]
  }

  lemma MovedIsPermuted(s: seq<Checksum>, i: nat)
    requires i < |s|
    ensures Permuted(MovedLast(s, i), s)
  {
    assert s == s[..i] + [s[i]] + s[i + 1..];
  }

  lemma MovedWins(s: seq<Checksum>, i: nat)
    requires i < |s|
    ensures s[i].typ in ToMap(MovedLast(s, i)) && ToMap(MovedLast(s, i))[s[i].typ] == s[i].value
  {
    var moved := MovedLast(s, i);
    assert moved[..|moved| - 1] == s[..i] + s[i + 1..];
  }

  /**
   The order of a checksum list does not matter to its map form if and only if no type
   comes with two different values.
   */
  lemma OrderIsIrrelevant(checksums: seq<Checksum>)
    ensures Consistent(checksums) <==> forall t :: Permuted(t, checksums) ==> ToMap(t) == ToMap(checksums)
  {
    if Consistent(checksums) {
      forall t | Permuted(t, checksums)
        ensures ToMap(t) == ToMap(checksums)
      {
        ConsistentPermuted(checksums, t);
      }
    } else {
      var c, d :| c in checksums && d in checksums && c.typ == d.typ && c.value != d.value;
      var i :| 0 <= i < |checksums| && checksums[i] == c;
      var j :| 0 <= j < |checksums| && checksums[j] == d;
      MovedIsPermuted(checksums, i);
      MovedIsPermuted(checksums, j);
      MovedWins(checksums, i);
      MovedWins(checksums, j);
    }
  }

  lemma EncodedMembers(hashes: map<string, string>, order: seq<string>)
    requires Enumerates(order, hashes.Keys)
    ensures forall c :: c in Encoded(hashes, order) <==> c.typ in hashes && c.value == hashes[c.typ]
  {
    forall c: Checksum | c.typ in hashes && c.value == hashes[c.typ]
      ensures c in Encoded(hashes, order)
    {
      var i :| 0 <= i < |order| && order[i] == c.typ;
      assert Encoded(hashes, order)[i] == c;
    }
  }

  /** The list made of a map, in any order and then shuffled in any way, converts back to that map. */
  lemma MapRoundTrip(hashes: map<string, string>, order: seq<string>, list: seq<Checksum>)
    requires Enumerates(order, hashes.Keys) && Permuted(list, Encoded(hashes, order))
    ensures ToMap(list) == hashes
  {
    var encoded := Encoded(hashes, order);
    EncodedMembers(hashes, order);
    ConsistentPermuted(encoded, list);
    forall t
      ensures t in ToMap(encoded) <==> t in hashes
      ensures t in hashes ==> ToMap(encoded)[t] == hashes[t]
    {
      ToMapIsLast(encoded, t);
      if t in hashes {
        ConsistentLookup(encoded, Checksum(t, hashes[t]));
      }
    }
  }

  // ---------- hash info ----------

  function ValueOf(hashes: map<string, string>, typ: string): string {
    if typ in hashes then hashes[typ] else ""
  }

  /** The six fields a map of hashes fills. */
  function Info(hashes: map<string, string>): HashInfo {
    HashInfo(
      ValueOf(hashes, "md5"), ValueOf(hashes, "sha1"), ValueOf(hashes, "sha256"),
      ValueOf(hashes, "sha512"), ValueOf(hashes, "crc32c"), ValueOf(hashes, "etag"))
  }

  /** Which type fills which field; a missing type leaves it empty, and other types fill none. */
  predicate Fills(hashes: map<string, string>, info: HashInfo) {
    && info.md5 == (if "md5" in hashes then hashes["md5"] else "")
    && info.sha == (if "sha1" in hashes then hashes["sha1"] else "")
    && info.sha256 == (if "sha256" in hashes then hashes["sha256"] else "")
    && info.sha512 == (if "sha512" in hashes then hashes["sha512"] else "")
    && info.crc == (if "crc32c" in hashes then hashes["crc32c"] else "")
    && info.etag == (if "etag" in hashes then hashes["etag"] else "")
  }

  method ConvertStringMapToHashInfo(hashes: map<string, string>) returns (info: HashInfo)
    ensures info == Info(hashes)
    ensures Fills(hashes, info)
  {
    info := EMPTY;
    var rest := hashes.Keys;
    while rest != {}
      invariant rest <= hashes.Keys
      invariant info == Info(hashes - rest)
      decreases |rest|
    {
      var key :| key in rest;
      var value := hashes[key];
      rest := rest - {key};
      if key !in SUPPORTED {
        continue;
      }
      match key {
        case "md5" => info := info.(md5 := value);
        case "sha1" => info := info.(sha := value);
        case "sha256" => info := info.(sha256 := value);
        case "sha512" => info := info.(sha512 := value);
        case "crc32c" => info := info.(crc := value);
        case "etag" => info := info.(etag := value);
        case _ =>
      }
    }
    assert hashes - {} == hashes;
  }

  method ConvertChecksumsToHashInfo(checksums: seq<Checksum>) returns (info: HashInfo)
    ensures info == Info(ToMap(checksums))
    ensures Fills(ToMap(checksums), info)
  {
    var m := ConvertChecksumsToMap(checksums);
    info := ConvertStringMapToHashInfo(m);
  }

  function Decoded(payload: Payload): Option<HashInfo> {
    match payload
    case Null => Some(EMPTY)
    case Hashes(hashes) => Some(Info(hashes))
    case List(checksums) => Some(Info(ToMap(checksums)))
    case Unsupported => None
  }

  class HashInfoRef {
    var info: HashInfo

    constructor (info: HashInfo)
      ensures this.info == info
    {
      this.info := info;
    }

    /** Overwrites the receiver, or leaves it alone and reports an error. */
    method UnmarshalJSON(payload: Payload) returns (ok: bool)
      modifies this
      ensures ok == Decoded(payload).Some?
      ensures info == if ok then Decoded(payload).value else old(info)
      ensures ok <==> !payload.Unsupported?
      ensures payload.Null? ==> Fills(map[], info)
      ensures payload.Hashes? ==> Fills(payload.hashes, info)
      ensures payload.List? ==> Fills(ToMap(payload.checksums), info)
    {
      match payload {
        case Null => info := EMPTY;
        case Hashes(hashes) => info := ConvertStringMapToHashInfo(hashes);
        case List(checksums) => info := ConvertChecksumsToHashInfo(checksums);
        case Unsupported => return false;
      }
      return true;
    }
  }

  /** A client that receives the map and one that receives the list, in any order, read the same hashes. */
  lemma BothFormsDecodeAlike(hashes: map<string, string>, order: seq<string>, list: seq<Checksum>)
    requires Enumerates(order, hashes.Keys) && Permuted(list, Encoded(hashes, order))
    ensures Decoded(List(list)) == Decoded(Hashes(hashes)) == Some(Info(hashes))
  {
    MapRoundTrip(hashes, order, list);
  }
}
