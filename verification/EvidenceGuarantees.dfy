/** What the evidence store guarantees over whole runs: content addressing and referential closure. */
module EvidenceGuarantees {
  import opened Options
  import opened JsonText
  import opened CanonicalJson
  import opened JsonRoundTrip
  import opened Evidence

  predicate Collision(h: string -> string, x: string, y: string) {
    x != y && h(x) == h(y)
  }

  /** Every blob an intact pack cites is there. */
  ghost predicate Closed(env: Env, f: Files) {
    forall id, d :: id in f.packs && d in Cited(env, id, f.packs[id]) ==> d in f.blobs
  }

  /** Every file is named by the digest of its content. */
  ghost predicate ContentAddressed(env: Env, f: Files) {
    && (forall id :: id in f.packs ==> Intact(env, id, f.packs[id]))
    && (forall d :: d in f.blobs ==> env.sha256(f.blobs[d].data) == d)
  }

  function PacksKept(env: Env, packs: map<string, string>, cutoff: int, customer: Option<string>): map<string, string> {
    packs - ExpiredPacks(env, packs, cutoff, customer)
  }

  /** Admin garbage collection: expired packs, then the blobs the remaining packs leave uncited. */
  ghost function Collected(env: Env, f: Files, cutoff: int, customer: Option<string>): Files {
    var packs := PacksKept(env, f.packs, cutoff, customer);
    Files(packs, f.blobs - Garbage(env, packs, f.blobs, Some(cutoff)))
  }

  method AdminGc(store: EvidenceStore, cutoff: int, customer: Option<string>, dryRun: bool)
    returns (deletedPacks: nat, deletedBlobs: nat)
    modifies store`packs, store`blobs
    ensures deletedPacks == |ExpiredPacks(store.env, old(store.packs), cutoff, customer)|
    ensures !dryRun ==>
      && Files(store.packs, store.blobs) == Collected(store.env, old(Files(store.packs, store.blobs)), cutoff, customer)
      && deletedBlobs == |Garbage(store.env, store.packs, old(store.blobs), Some(cutoff))|
    ensures dryRun ==>
      && store.packs == old(store.packs) && store.blobs == old(store.blobs)
      && deletedBlobs == |Garbage(store.env, old(store.packs), old(store.blobs), Some(cutoff))|
  {
    deletedPacks := store.DeletePacksBefore(cutoff, customer, dryRun);
    deletedBlobs := store.DeleteUnreferencedBlobs(None, Some(cutoff), dryRun);
  }

  /** RESULT: a collection deletes exactly the intact, matching, older packs and the old blobs no remaining pack cites,
      and takes no cited blob from a pack that stays. */
  lemma CollectionExact(env: Env, f: Files, cutoff: int, customer: Option<string>)
    ensures var g := Collected(env, f, cutoff, customer);
      && (forall id :: id in g.packs <==> id in f.packs && !Expired(env, id, f.packs[id], cutoff, customer))
      && (forall id :: id in g.packs ==> g.packs[id] == f.packs[id])
      && (forall d :: d in g.blobs <==> d in f.blobs && (Referenced(env, g.packs, d) || f.blobs[d].mtime >= cutoff))
      && (forall id, d :: id in g.packs && d in Cited(env, id, g.packs[id]) && d in f.blobs ==>
            d in g.blobs && g.blobs[d] == f.blobs[d])
  {
    var g := Collected(env, f, cutoff, customer);
    forall id, d | id in g.packs && d in Cited(env, id, g.packs[id]) && d in f.blobs
      ensures d in g.blobs && g.blobs[d] == f.blobs[d]
    {
      assert Referenced(env, g.packs, d);
    }
  }

  lemma FewerPacks(env: Env, packs: map<string, string>, cutoff: int, customer: Option<string>, d: string)
    requires Referenced(env, PacksKept(env, packs, cutoff, customer), d)
    ensures Referenced(env, packs, d)
  {
    var kept := PacksKept(env, packs, cutoff, customer);
    var id :| id in kept && d in Cited(env, id, kept[id]);
    assert id in packs && packs[id] == kept[id];
  }

  /** A blob old enough to go that only expired packs cite. */
  ghost predicate FreedByExpiry(env: Env, f: Files, cutoff: int, customer: Option<string>, d: string) {
    && d in f.blobs && f.blobs[d].mtime < cutoff
    && Referenced(env, f.packs, d) && !Referenced(env, PacksKept(env, f.packs, cutoff, customer), d)
  }

  /** RESULT: a dry run scans the packs it did not delete, so it reports no more blobs than the real run deletes,
      and as many exactly when no old blob is cited by expired packs alone. */
  lemma DryRunUndercounts(env: Env, f: Files, cutoff: int, customer: Option<string>)
    ensures
      var dry := Garbage(env, f.packs, f.blobs, Some(cutoff));
      var wet := Garbage(env, PacksKept(env, f.packs, cutoff, customer), f.blobs, Some(cutoff));
      |dry| <= |wet| && (|dry| == |wet| <==> !exists d :: FreedByExpiry(env, f, cutoff, customer, d))
  {
    var kept := PacksKept(env, f.packs, cutoff, customer);
    var dry, wet := Garbage(env, f.packs, f.blobs, Some(cutoff)), Garbage(env, kept, f.blobs, Some(cutoff));
    forall d | d in dry ensures d in wet {
      if Referenced(env, kept, d) {
        FewerPacks(env, f.packs, cutoff, customer, d);
      }
    }
    SubsetSize(dry, wet);
    forall d ensures FreedByExpiry(env, f, cutoff, customer, d) <==> d in wet && d !in dry {
    }
    if |dry| != |wet| {
      assert dry != wet;
      var d :| d in wet && d !in dry;
      assert FreedByExpiry(env, f, cutoff, customer, d);
    }
  }

  /** What the empty store holds after a blob and a pack that cites it were written. */
  ghost function BlobAndPack(env: Env, data: string, now: int, pack: Json): Files {
    After(env, Files(map[], map[]), [PutBlob(data, now), PutPack(pack)])
  }

  function CitingPack(digest: string): Json {
    Obj([Field("created_at", Str("2020-01-01T00:00:00Z")),
         Field("ingestion", Obj([Field("normalized_name_sets_blob_sha256", Str(digest))]))])
  }

  lemma CitingPackIsCanonical(digest: string)
    ensures IsCanonical(CitingPack(digest)) && Canon(CitingPack(digest)) == CitingPack(digest)
  {
    var inner := [Field("normalized_name_sets_blob_sha256", Str(digest))];
    assert inner[1..] == [] && AscendingKeys(inner);
    var fields := CitingPack(digest).fields;
    assert "created_at"[0] < "ingestion"[0];
    assert fields[1..] == [Field("ingestion", Obj(inner))] && fields[1..][1..] == [];
    assert AscendingKeys(fields[1..]);
    assert AllAbove("created_at", fields[1..]);
    CanonKeeps(CitingPack(digest)) by {
      CanonicalWellFormed(CitingPack(digest));
    }
    CanonicalUnique(Canon(CitingPack(digest)), CitingPack(digest));
  }

  lemma CitingPackReads(digest: string)
    ensures
      var pack := CitingPack(digest);
      && Get(pack, "created_at") == Some(Str("2020-01-01T00:00:00Z"))
      && PackDigests(pack) == TextSet(Some(Str(digest)))
  {
    var pack := CitingPack(digest);
    var ingestion := pack.fields[1].value;
    assert "created_at"[0] != "ingestion"[0] && "normalized_name_sets_blob_sha256"[0] != "sources"[0];
    assert pack.fields[1..][0] == pack.fields[1];
    assert Lookup(pack.fields[1..], "ingestion") == Some(ingestion);
    assert Get(pack, "ingestion") == Some(ingestion);
    assert ingestion.fields[1..] == [] && Get(ingestion, "sources") == None;
  }

  /** One pack file citing one blob: with the pack kept nothing is garbage, without it the blob is. */
  lemma OnePackGarbage(env: Env, id: string, payload: string, d: string, blob: Blob, cutoff: int)
    requires Cited(env, id, payload) == {d} && blob.mtime < cutoff
    ensures Garbage(env, map[id := payload], map[d := blob], Some(cutoff)) == {}
    ensures Garbage(env, map[], map[d := blob], Some(cutoff)) == {d}
  {
    var packs := map[id := payload];
    assert id in packs && d in Cited(env, id, packs[id]);
    assert Referenced(env, packs, d);
  }

  lemma OnePackExpires(env: Env, id: string, payload: string, cutoff: int)
    requires Expired(env, id, payload, cutoff, None)
    ensures PacksKept(env, map[id := payload], cutoff, None) == map[]
  {
    var packs := map[id := payload];
    assert ExpiredPacks(env, packs, cutoff, None) == {id};
  }

  /** RESULT: one old pack citing one old blob: the dry run reports no blob, the real run deletes it. */
  lemma DryRunMisses(env: Env, data: string, now: int, cutoff: int)
    requires ReadsCanonical(env) && env.sha256(data) != ""
    requires env.readTime("2020-01-01T00:00:00Z").Some? && env.readTime("2020-01-01T00:00:00Z").value < cutoff
    requires now < cutoff
    ensures
      var f := BlobAndPack(env, data, now, CitingPack(env.sha256(data)));
      && |Garbage(env, f.packs, f.blobs, Some(cutoff))| == 0
      && |Garbage(env, PacksKept(env, f.packs, cutoff, None), f.blobs, Some(cutoff))| == 1
  {
    var d := env.sha256(data);
    var payload := Canonical(CitingPack(d));
    var id := env.sha256(payload);
    TwoWrites(env, data, now, CitingPack(d));
    CitingPackDecodes(env, d);
    CitingPackReads(d);
    OnePackGarbage(env, id, payload, d, Blob(data, now), cutoff);
    OnePackExpires(env, id, payload, cutoff);
  }

  lemma CitingPackDecodes(env: Env, d: string)
    requires ReadsCanonical(env)
    ensures env.decode(Canonical(CitingPack(d))) == Some(CitingPack(d))
  {
    CitingPackIsCanonical(d);
    CanonicalWellFormed(CitingPack(d));
    ParseRaw(CitingPack(d));
  }

  lemma TwoWrites(env: Env, data: string, now: int, pack: Json)
    ensures BlobAndPack(env, data, now, pack) ==
      Files(map[env.sha256(Canonical(pack)) := Canonical(pack)], map[env.sha256(data) := Blob(data, now)])
  {
    var f0 := Files(map[], map[]);
    var f1 := Apply(env, f0, PutBlob(data, now));
    var ops := [PutBlob(data, now), PutPack(pack)];
    assert ops[1..] == [PutPack(pack)] && ops[1..][1..] == [];
    assert After(env, f0, ops) == After(env, f1, ops[1..]);
    assert After(env, f1, ops[1..]) == Apply(env, f1, PutPack(pack));
  }

  datatype Op =
    | PutBlob(data: string, now: int)
    | PutPack(pack: Json)
    | Gc(cutoff: int, customer: Option<string>)

  function AfterPutPack(env: Env, packs: map<string, string>, pack: Json): map<string, string> {
    var id := env.sha256(Canonical(pack));
    if id in packs then packs else packs[id := Canonical(pack)]
  }

  ghost function Apply(env: Env, f: Files, op: Op): Files {
    match op
    case PutBlob(data, now) =>
      var d := env.sha256(data);
      if d in f.blobs then f else f.(blobs := f.blobs[d := Blob(data, now)])
    case PutPack(pack) => f.(packs := AfterPutPack(env, f.packs, pack))
    case Gc(cutoff, customer) => Collected(env, f, cutoff, customer)
  }

  /** A pack is written only while the blobs it cites are there, or when its name is taken by another text. */
  ghost predicate Allowed(env: Env, f: Files, op: Op) {
    op.PutPack? ==> CitedPresent(env, f, op.pack) || NameTaken(env, f, op.pack)
  }

  ghost predicate CitedPresent(env: Env, f: Files, pack: Json) {
    forall d :: d in Cited(env, env.sha256(Canonical(pack)), Canonical(pack)) ==> d in f.blobs
  }

  predicate NameTaken(env: Env, f: Files, pack: Json) {
    var id := env.sha256(Canonical(pack));
    id in f.packs && f.packs[id] != Canonical(pack)
  }

  ghost function After(env: Env, f: Files, ops: seq<Op>): Files
    decreases |ops|
  {
    if ops == [] then f else After(env, Apply(env, f, ops[0]), ops[1..])
  }

  ghost predicate AllAllowed(env: Env, f: Files, ops: seq<Op>)
    decreases |ops|
  {
    ops == [] || (Allowed(env, f, ops[0]) && AllAllowed(env, Apply(env, f, ops[0]), ops[1..]))
  }

  lemma ApplyKeepsAddressed(env: Env, f: Files, op: Op)
    requires ContentAddressed(env, f)
    ensures ContentAddressed(env, Apply(env, f, op))
  {
  }

  /** RESULT: from a closed store put_pack leaves a closed one exactly when every blob the pack cites is there as it is
      written, or its name is taken by a colliding text, so that nothing is written. */
  lemma PutPackClosedIff(env: Env, f: Files, pack: Json)
    requires ContentAddressed(env, f) && Closed(env, f)
    ensures Closed(env, Apply(env, f, PutPack(pack))) <==> Allowed(env, f, PutPack(pack))
    ensures NameTaken(env, f, pack) ==> Collision(env.sha256, f.packs[env.sha256(Canonical(pack))], Canonical(pack))
  {
    var id, g := env.sha256(Canonical(pack)), Apply(env, f, PutPack(pack));
    if Closed(env, g) && !NameTaken(env, f, pack) {
      assert g.packs[id] == Canonical(pack);
    }
  }

  lemma ApplyClosedIff(env: Env, f: Files, op: Op)
    requires ContentAddressed(env, f) && Closed(env, f)
    ensures Closed(env, Apply(env, f, op)) <==> Allowed(env, f, op)
  {
    match op
    case PutBlob(_, _) =>
    case PutPack(pack) => PutPackClosedIff(env, f, pack);
    case Gc(cutoff, customer) => CollectionExact(env, f, cutoff, customer);
  }

  /** No intact pack misses a blob at any point of the run. */
  ghost predicate ClosedThroughout(env: Env, f: Files, ops: seq<Op>)
    decreases |ops|
  {
    Closed(env, f) && (ops == [] || ClosedThroughout(env, Apply(env, f, ops[0]), ops[1..]))
  }

  /** RESULT: over any run of writes and collections the files stay content-addressed, and every cited blob is there
      throughout exactly when each pack is written only while its blobs are there: collections never break it. */
  lemma {:induction false} RunKeepsClosed(env: Env, f: Files, ops: seq<Op>)
    requires ContentAddressed(env, f) && Closed(env, f)
    ensures ContentAddressed(env, After(env, f, ops))
    ensures ClosedThroughout(env, f, ops) <==> AllAllowed(env, f, ops)
    ensures AllAllowed(env, f, ops) ==> Closed(env, After(env, f, ops))
    decreases |ops|
  {
    if ops != [] {
      var g := Apply(env, f, ops[0]);
      ApplyKeepsAddressed(env, f, ops[0]);
      ApplyClosedIff(env, f, ops[0]);
      if Closed(env, g) {
        RunKeepsClosed(env, g, ops[1..]);
      } else {
        RunKeepsAddressed(env, g, ops[1..]);
      }
    }
  }

  lemma {:induction false} RunKeepsAddressed(env: Env, f: Files, ops: seq<Op>)
    requires ContentAddressed(env, f)
    ensures ContentAddressed(env, After(env, f, ops))
    decreases |ops|
  {
    if ops != [] {
      ApplyKeepsAddressed(env, f, ops[0]);
      RunKeepsAddressed(env, Apply(env, f, ops[0]), ops[1..]);
    }
  }

  /** The collection takes this blob: it is old and no pack that stays cites it. */
  ghost predicate Collects(env: Env, f: Files, op: Op, d: string) {
    op.Gc? && d in f.blobs && f.blobs[d].mtime < op.cutoff
    && !Referenced(env, PacksKept(env, f.packs, op.cutoff, op.customer), d)
  }

  ghost predicate Spared(env: Env, f: Files, ops: seq<Op>, d: string)
    decreases |ops|
  {
    ops == [] || (!Collects(env, f, ops[0], d) && Spared(env, Apply(env, f, ops[0]), ops[1..], d))
  }

  /** The file of the blob is there at every point of the run. */
  ghost predicate StaysPut(env: Env, f: Files, ops: seq<Op>, d: string)
    decreases |ops|
  {
    d in f.blobs && (ops == [] || StaysPut(env, Apply(env, f, ops[0]), ops[1..], d))
  }

  lemma ApplyKeepsBlob(env: Env, f: Files, op: Op, d: string)
    requires d in f.blobs
    ensures var g := Apply(env, f, op);
      && (d in g.blobs <==> !Collects(env, f, op, d))
      && (d in g.blobs ==> g.blobs[d] == f.blobs[d])
  {
    if op.Gc? {
      CollectionExact(env, f, op.cutoff, op.customer);
    }
  }

  lemma {:induction false} StaysPutIff(env: Env, f: Files, ops: seq<Op>, d: string)
    requires d in f.blobs
    ensures StaysPut(env, f, ops, d) <==> Spared(env, f, ops, d)
    ensures
      var g := After(env, f, ops);
      Spared(env, f, ops, d) ==> d in g.blobs && g.blobs[d] == f.blobs[d]
    decreases |ops|
  {
    if ops != [] {
      ApplyKeepsBlob(env, f, ops[0], d);
      if !Collects(env, f, ops[0], d) {
        StaysPutIff(env, Apply(env, f, ops[0]), ops[1..], d);
      }
    }
  }

  /** json.loads reads back the canonical text of every value. */
  ghost predicate ReadsCanonical(env: Env) {
    forall v :: WellFormed(v) ==> env.decode(Canonical(v)) == Parse(Canonical(v))
  }

  /** RESULT: a stored pack reads back equal, unless its name was taken: by a corrupted file, which is reported,
      or by an intact one, which is then a collision of the digest. */
  lemma PackRoundTrip(env: Env, packs: map<string, string>, pack: Json)
    requires WellFormed(pack) && ReadsCanonical(env)
    ensures
      var id := env.sha256(Canonical(pack));
      var r := ReadPack(env, AfterPutPack(env, packs, pack), id);
      if id !in packs || packs[id] == Canonical(pack) then r.Ok? && Meaning(r.value) == Meaning(pack)
      else if Intact(env, id, packs[id]) then Collision(env.sha256, packs[id], Canonical(pack))
      else r == Err(IntegrityFailed)
  {
    ParseCanonical(pack);
  }

  /** RESULT: a blob put into a content-addressed store is there throughout whatever follows exactly when no collection
      finds it old and uncited, and then what is read in the end is the data, or a text that collides with it. */
  lemma BlobRoundTrip(env: Env, f: Files, data: string, now: int, ops: seq<Op>)
    requires ContentAddressed(env, f)
    ensures
      var d, g := env.sha256(data), Apply(env, f, PutBlob(data, now));
      var blobs := After(env, g, ops).blobs;
      && (StaysPut(env, g, ops, d) <==> Spared(env, g, ops, d))
      && (Spared(env, g, ops, d) ==>
            d in blobs && (blobs[d].data == data || Collision(env.sha256, blobs[d].data, data)))
  {
    StaysPutIff(env, Apply(env, f, PutBlob(data, now)), ops, env.sha256(data));
  }

  /** RESULT: put_blob leaves the age of an existing file alone, so a collection may take a blob just put again, and the
      pack that cites it is then written without it. */
  lemma CollectedBeforePack(env: Env, data: string, first: int, again: int, cutoff: int)
    requires ReadsCanonical(env) && env.sha256(data) != "" && first < cutoff
    ensures
      var before := [PutBlob(data, first), PutBlob(data, again), Gc(cutoff, None)];
      var pack := CitingPack(env.sha256(data));
      !Closed(env, After(env, Files(map[], map[]), before + [PutPack(pack)]))
  {
    var d, f0 := env.sha256(data), Files(map[], map[]);
    var before, pack := [PutBlob(data, first), PutBlob(data, again), Gc(cutoff, None)], CitingPack(d);
    AfterThree(env, f0, before);
    assert After(env, f0, before) == f0 by {
      var f1 := Apply(env, f0, before[0]);
      assert Apply(env, f1, before[1]) == f1;
      CollectionExact(env, f1, cutoff, None);
      assert Apply(env, f1, before[2]).blobs == map[];
    }
    AfterAppend(env, f0, before, PutPack(pack));
    CitingPackDecodes(env, d);
    CitingPackReads(d);
    assert d in Cited(env, env.sha256(Canonical(pack)), Canonical(pack));
    PutPackClosedIff(env, f0, pack);
  }

  lemma {:induction false} AfterAppend(env: Env, f: Files, ops: seq<Op>, op: Op)
    ensures After(env, f, ops + [op]) == Apply(env, After(env, f, ops), op)
    decreases |ops|
  {
    if ops == [] {
      assert ([op])[1..] == [] && ops + [op] == [op];
    } else {
      assert (ops + [op])[1..] == ops[1..] + [op];
      AfterAppend(env, Apply(env, f, ops[0]), ops[1..], op);
    }
  }

  lemma AfterThree(env: Env, f: Files, ops: seq<Op>)
    requires |ops| == 3
    ensures After(env, f, ops) == Apply(env, Apply(env, Apply(env, f, ops[0]), ops[1]), ops[2])
  {
    AfterAppend(env, f, ops[..2], ops[2]);
    AfterAppend(env, f, ops[..1], ops[1]);
    AfterAppend(env, f, [], ops[0]);
    assert ops == ops[..2] + [ops[2]] && ops[..2] == ops[..1] + [ops[1]] && ops[..1] == [] + [ops[0]];
  }

  /** RESULT: two packs get one identifier exactly when they are equal, or their texts collide. */
  lemma PackIdentity(env: Env, p: Json, q: Json)
    requires WellFormed(p) && WellFormed(q)
    ensures env.sha256(Canonical(p)) == env.sha256(Canonical(q))
      <==> Meaning(p) == Meaning(q) || Collision(env.sha256, Canonical(p), Canonical(q))
  {
    SameTextIffEqual(p, q);
  }

  function ScreeningSubject(listVersion: string, subject: Json): Json {
    Obj([Field("list_version", Str(listVersion)), Field("subject", subject)])
  }

  function ScreeningKey(env: Env, listVersion: string, subject: Json): string {
    env.sha256(Canonical(ScreeningSubject(listVersion, subject)))
  }

  /** RESULT: screenings share a cache key exactly for one list version and equal subjects, or when their texts
      collide. */
  lemma ScreeningKeyIdentity(env: Env, v: string, s: Json, v': string, s': Json)
    requires WellFormed(s) && WellFormed(s')
    ensures ScreeningKey(env, v, s) == ScreeningKey(env, v', s')
      <==> (v == v' && Meaning(s) == Meaning(s'))
           || Collision(env.sha256, Canonical(ScreeningSubject(v, s)), Canonical(ScreeningSubject(v', s')))
  {
    assert "list_version"[0] != "subject"[0];
    PackIdentity(env, ScreeningSubject(v, s), ScreeningSubject(v', s'));
    TwoFields("list_version", Str(v), "subject", s);
    TwoFields("list_version", Str(v'), "subject", s');
  }

  lemma TwoFields(k: string, v: Json, l: string, w: Json)
    requires k != l
    ensures MeaningFields([Field(k, v), Field(l, w)]) == map[k := Meaning(v), l := Meaning(w)]
    ensures Meaning(Obj([Field(k, v), Field(l, w)])).fields[k] == Meaning(v)
    ensures Meaning(Obj([Field(k, v), Field(l, w)])).fields[l] == Meaning(w)
  {
    var fs := [Field(k, v), Field(l, w)];
    assert fs[1..] == [Field(l, w)] && ([Field(l, w)])[1..] == [];
    assert MeaningFields([Field(l, w)]) == map[l := Meaning(w)];
  }
}
