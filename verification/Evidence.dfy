/** The content-addressed evidence store: packs, the blobs they cite, and their garbage collection. */
module Evidence {
  import opened Options
  import opened JsonText
  import CanonicalJson

  /** What the store takes from elsewhere: the digest, json.loads, and the reading of a created_at text as an aware
      instant. */
  datatype Env = Env(sha256: string -> string, decode: string -> Option<Json>, readTime: string -> Option<int>)

  datatype Blob = Blob(data: string, mtime: int)

  /** The two directories: file stem to content. */
  datatype Files = Files(packs: map<string, string>, blobs: map<string, Blob>)

  datatype StoreError = NotFound | IntegrityFailed | Undecodable

  predicate Intact(env: Env, id: string, payload: string) {
    env.sha256(payload) == id
  }

  /** dict.get: None for a missing key and for anything that is not a dict. */
  function Get(v: Json, key: string): Option<Json> {
    if v.Obj? then Lookup(v.fields, key) else None
  }

  predicate IsDict(v: Option<Json>) {
    v.Some? && v.value.Obj?
  }

  predicate Expired(env: Env, id: string, payload: string, cutoff: int, customer: Option<string>) {
    var pack := env.decode(payload);
    Intact(env, id, payload) && IsDict(pack)
    && (customer.None? || Get(pack.value, "customer_id") == Some(Str(customer.value)))
    && var createdAt := Get(pack.value, "created_at");
       createdAt.Some? && createdAt.value.Str?
       && env.readTime(createdAt.value.text).Some? && env.readTime(createdAt.value.text).value < cutoff
  }

  function TextSet(v: Option<Json>): set<string> {
    if v.Some? && v.value.Str? && v.value.text != "" then {v.value.text} else {}
  }

  function SourceDigests(sources: seq<Json>): set<string> {
    if sources == [] then {}
    else TextSet(Get(sources[0], "content_blob_sha256")) + SourceDigests(sources[1..])
  }

  function PackDigests(pack: Json): set<string> {
    var ingestion := Get(pack, "ingestion");
    if !IsDict(ingestion) then {}
    else
      var sources := Get(ingestion.value, "sources");
      TextSet(Get(ingestion.value, "normalized_name_sets_blob_sha256"))
      + if sources.Some? && sources.value.Arr? then SourceDigests(sources.value.items) else {}
  }

  /** The blob digests a pack file cites; a corrupted or unreadable file cites none. */
  function Cited(env: Env, id: string, payload: string): set<string> {
    if Intact(env, id, payload) && IsDict(env.decode(payload)) then PackDigests(env.decode(payload).value) else {}
  }

  ghost predicate Referenced(env: Env, packs: map<string, string>, digest: string) {
    exists id :: id in packs && digest in Cited(env, id, packs[id])
  }

  function ExpiredPacks(env: Env, packs: map<string, string>, cutoff: int, customer: Option<string>): set<string> {
    set id | id in packs && Expired(env, id, packs[id], cutoff, customer)
  }

  function Chosen(test: (string, string) -> bool, packs: map<string, string>): set<string> {
    set id | id in packs && test(id, packs[id])
  }

  /** The blobs no pack of packs cites that are older than the cutoff, or of any age without one. */
  ghost function Garbage(env: Env, packs: map<string, string>, blobs: map<string, Blob>,
        cutoff: Option<int>): set<string> {
    set d | d in blobs && !Referenced(env, packs, d) && (cutoff.None? || blobs[d].mtime < cutoff.value)
  }

  /** The same for a set of digests supplied by the caller. */
  function Unlisted(referenced: set<string>, blobs: map<string, Blob>, cutoff: Option<int>): set<string> {
    set d | d in blobs && d !in referenced && (cutoff.None? || blobs[d].mtime < cutoff.value)
  }

  class EvidenceStore {
    const env: Env
    var packs: map<string, string>
    var blobs: map<string, Blob>

    constructor (env: Env)
      ensures this.env == env && packs == map[] && blobs == map[]
    {
      this.env := env;
      packs, blobs := map[], map[];
    }

    method PutBlob(data: string, now: int) returns (digest: string)
      modifies this`blobs
      ensures digest == env.sha256(data)
      ensures blobs == if digest in old(blobs) then old(blobs) else old(blobs)[digest := Blob(data, now)]
    {
      digest := env.sha256(data);
      if digest !in blobs {
        blobs := blobs[digest := Blob(data, now)];
      }
    }

    method GetBlob(digest: string) returns (r: Result<string, StoreError>)
      ensures r == if digest in blobs then Ok(blobs[digest].data) else Err(NotFound)
    {
      r := if digest in blobs then Ok(blobs[digest].data) else Err(NotFound);
    }

    method PutPack(pack: Json) returns (id: string)
      modifies this`packs
      ensures id == env.sha256(CanonicalJson.Canonical(pack))
      ensures packs == if id in old(packs) then old(packs) else old(packs)[id := CanonicalJson.Canonical(pack)]
    {
      var payload := CanonicalJson.Canonical(pack);
      id := env.sha256(payload);
      if id !in packs {
        packs := packs[id := payload];
      }
    }

    method GetPack(id: string) returns (r: Result<Json, StoreError>)
      ensures r == ReadPack(env, packs, id)
    {
      if id !in packs {
        return Err(NotFound);
      }
      var payload := packs[id];
      if env.sha256(payload) != id {
        return Err(IntegrityFailed);
      }
      var pack := env.decode(payload);
      r := if pack.Some? then Ok(pack.value) else Err(Undecodable);
    }

    method DeletePacksBefore(cutoff: int, customer: Option<string>, dryRun: bool) returns (deleted: nat)
      modifies this`packs
      ensures deleted == |ExpiredPacks(env, old(packs), cutoff, customer)|
      ensures packs == if dryRun then old(packs) else old(packs) - ExpiredPacks(env, old(packs), cutoff, customer)
    {
      var e := env;
      var expired := (id, payload) => Expired(e, id, payload, cutoff, customer);
      assert Chosen(expired, packs) == ExpiredPacks(env, packs, cutoff, customer);
      deleted := SweepPacks(expired, dryRun);
    }

    /** The pass over the packs directory, in an arbitrary order. */
    method SweepPacks(expired: (string, string) -> bool, dryRun: bool) returns (deleted: nat)
      modifies this`packs
      ensures deleted == |Chosen(expired, old(packs))|
      ensures packs == if dryRun then old(packs) else old(packs) - Chosen(expired, old(packs))
    {
      deleted := 0;
      var paths := packs.Keys;
      ghost var all, doomed := packs, Chosen(expired, packs);
      while paths != {}
        invariant paths <= all.Keys
        invariant deleted == |doomed - paths|
        invariant packs == if dryRun then all else all - (doomed - paths)
        decreases |paths|
      {
        var id := Pick(paths);
        SweepStep(all, doomed, paths, id);
        paths := paths - {id};
        if expired(id, packs[id]) {
          if !dryRun {
            packs := packs - {id};
          }
          deleted := deleted + 1;
        }
      }
      assert doomed - {} == doomed;
    }

    /** d is cited by a pack the scan has passed. */
    ghost predicate SeenCited(paths: set<string>, d: string)
      reads this
    {
      exists id :: id in packs && id !in paths && d in Cited(env, id, packs[id])
    }

    method ReferencedBlobDigests() returns (digests: set<string>)
      ensures forall d :: d in digests <==> Referenced(env, packs, d)
    {
      digests := {};
      var paths := packs.Keys;
      while paths != {}
        invariant paths <= packs.Keys
        invariant forall d :: d in digests <==> SeenCited(paths, d)
        decreases |paths|
      {
        var id := Pick(paths);
        paths := paths - {id};
        var pack := env.decode(packs[id]);
        if Intact(env, id, packs[id]) && IsDict(pack) {
          var found := CitedBy(pack.value);
          assert found == Cited(env, id, packs[id]);
          digests := digests + found;
        }
      }
    }

    method DeleteUnreferencedBlobs(referenced: Option<set<string>>, cutoff: Option<int>, dryRun: bool)
      returns (deleted: nat)
      modifies this`blobs
      ensures
        var gone := if referenced.Some? && referenced.value != {} then Unlisted(referenced.value, old(blobs), cutoff)
                    else Garbage(env, packs, old(blobs), cutoff);
        deleted == |gone| && blobs == if dryRun then old(blobs) else old(blobs) - gone
    {
      var used: set<string>;
      if referenced.Some? && referenced.value != {} {
        used := referenced.value;
      } else {
        used := ReferencedBlobDigests();
        assert Unlisted(used, blobs, cutoff) == Garbage(env, packs, blobs, cutoff);
      }
      deleted := SweepBlobs(used, cutoff, dryRun);
    }

    method SweepBlobs(used: set<string>, cutoff: Option<int>, dryRun: bool) returns (deleted: nat)
      modifies this`blobs
      ensures deleted == |Unlisted(used, old(blobs), cutoff)|
      ensures blobs == if dryRun then old(blobs) else old(blobs) - Unlisted(used, old(blobs), cutoff)
    {
      deleted := 0;
      var paths := blobs.Keys;
      ghost var all, doomed := blobs, Unlisted(used, blobs, cutoff);
      while paths != {}
        invariant paths <= all.Keys
        invariant deleted == |doomed - paths|
        invariant blobs == if dryRun then all else all - (doomed - paths)
        decreases |paths|
      {
        var digest := Pick(paths);
        SweepStep(all, doomed, paths, digest);
        paths := paths - {digest};
        if digest !in used && (cutoff.None? || blobs[digest].mtime < cutoff.value) {
          if !dryRun {
            blobs := blobs - {digest};
          }
          deleted := deleted + 1;
        }
      }
      assert doomed - {} == doomed;
    }
  }

  /** Passing one file of a directory sweep. */
  lemma SweepStep<T>(all: map<string, T>, doomed: set<string>, paths: set<string>, id: string)
    requires id in paths && paths <= all.Keys && doomed <= all.Keys
    ensures id in doomed ==>
      && |doomed - (paths - {id})| == |doomed - paths| + 1
      && all - (doomed - (paths - {id})) == all - (doomed - paths) - {id}
    ensures id !in doomed ==> doomed - (paths - {id}) == doomed - paths
    ensures id in all - (doomed - paths) && (all - (doomed - paths))[id] == all[id]
  {
    if id in doomed {
      assert doomed - (paths - {id}) == (doomed - paths) + {id};
    } else {
      assert doomed - (paths - {id}) == doomed - paths;
    }
  }

  /** The digests of one pack, gathered by the loop over its sources. */
  method CitedBy(pack: Json) returns (digests: set<string>)
    requires pack.Obj?
    ensures digests == PackDigests(pack)
  {
    digests := {};
    var ingestion := Get(pack, "ingestion");
    if IsDict(ingestion) {
      digests := TextSet(Get(ingestion.value, "normalized_name_sets_blob_sha256"));
      var sources := Get(ingestion.value, "sources");
      if sources.Some? && sources.value.Arr? {
        var items := sources.value.items;
        var k := 0;
        while k < |items|
          invariant 0 <= k <= |items|
          invariant digests + SourceDigests(items[k..]) == PackDigests(pack)
        {
          digests := digests + TextSet(Get(items[k], "content_blob_sha256"));
          assert items[k..][1..] == items[k + 1..];
          k := k + 1;
        }
      }
    }
  }

  function ReadPack(env: Env, packs: map<string, string>, id: string): Result<Json, StoreError> {
    if id !in packs then Err(NotFound)
    else if !Intact(env, id, packs[id]) then Err(IntegrityFailed)
    else if env.decode(packs[id]).None? then Err(Undecodable)
    else Ok(env.decode(packs[id]).value)
  }
}
