/** Which packs expire and which blobs they cite, told by the entries of the pack. */
module PackEntries {
  import opened Options
  import opened JsonText
  import opened Evidence

  /** The dict has this entry; of a repeated key the first counts, which a parsed dict has only once. */
  ghost predicate Has(v: Json, key: string, w: Json) {
    v.Obj? && exists i :: && 0 <= i < |v.fields| && v.fields[i] == Field(key, w)
                          && forall j :: 0 <= j < i ==> v.fields[j].key != key
  }

  lemma {:induction false} LookupIsFirst(fields: seq<Field>, key: string, w: Json)
    ensures Lookup(fields, key) == Some(w) <==> Has(Obj(fields), key, w)
  {
    if fields != [] {
      LookupIsFirst(fields[1..], key, w);
      var v, rest := Obj(fields), Obj(fields[1..]);
      if Has(v, key, w) && fields[0].key != key {
        var i :| && 0 <= i < |fields| && fields[i] == Field(key, w) && forall j :: 0 <= j < i ==> fields[j].key != key;
        assert rest.fields[i - 1] == fields[i];
        assert forall j :: 0 <= j < i - 1 ==> rest.fields[j] == fields[j + 1];
      }
      if Has(rest, key, w) && fields[0].key != key {
        var i :| && 0 <= i < |rest.fields| && rest.fields[i] == Field(key, w)
                 && forall j :: 0 <= j < i ==> rest.fields[j].key != key;
        assert fields[i + 1] == rest.fields[i];
        assert forall j :: 0 < j < i + 1 ==> fields[j] == rest.fields[j - 1];
      }
      if fields[0] == Field(key, w) {
        assert Has(v, key, w);
      }
    }
  }

  lemma GetIsEntry(v: Json, key: string, w: Json)
    ensures Get(v, key) == Some(w) <==> Has(v, key, w)
  {
    if v.Obj? {
      LookupIsFirst(v.fields, key, w);
    }
  }

  /** A text entry that names a blob. */
  ghost predicate Names(v: Json, key: string, digest: string) {
    digest != "" && Has(v, key, Str(digest))
  }

  lemma TextSetNames(v: Json, key: string, digest: string)
    ensures digest in TextSet(Get(v, key)) <==> Names(v, key, digest)
  {
    GetIsEntry(v, key, Str(digest));
  }

  lemma {:induction false} SourcesName(sources: seq<Json>, digest: string)
    ensures digest in SourceDigests(sources)
      <==> exists i :: 0 <= i < |sources| && Names(sources[i], "content_blob_sha256", digest)
  {
    if sources != [] {
      SourcesName(sources[1..], digest);
      TextSetNames(sources[0], "content_blob_sha256", digest);
      if exists i :: 0 < i < |sources| && Names(sources[i], "content_blob_sha256", digest) {
        var i :| 0 < i < |sources| && Names(sources[i], "content_blob_sha256", digest);
        assert sources[1..][i - 1] == sources[i];
      }
      if exists i :: 0 <= i < |sources[1..]| && Names(sources[1..][i], "content_blob_sha256", digest) {
        var i :| 0 <= i < |sources[1..]| && Names(sources[1..][i], "content_blob_sha256", digest);
        assert sources[i + 1] == sources[1..][i];
      }
    }
  }

  /** Its ingestion entry names the blob, as the name sets or as the content of one of the sources. */
  ghost predicate Cites(pack: Json, digest: string) {
    exists ingestion: Json ::
      && Has(pack, "ingestion", ingestion)
      && (Names(ingestion, "normalized_name_sets_blob_sha256", digest)
          || exists sources: seq<Json> :: Has(ingestion, "sources", Arr(sources)) && SomeNames(sources, digest))
  }

  ghost predicate SomeNames(sources: seq<Json>, digest: string) {
    exists i :: 0 <= i < |sources| && Names(sources[i], "content_blob_sha256", digest)
  }

  /** RESULT: the blobs a pack file cites are exactly those its ingestion entry names, if the file is intact and holds a
      dict. */
  lemma CitedIff(env: Env, id: string, payload: string, digest: string)
    ensures digest in Cited(env, id, payload)
      <==> env.sha256(payload) == id && env.decode(payload).Some? && Cites(env.decode(payload).value, digest)
  {
    if env.decode(payload).Some? && env.sha256(payload) == id {
      var pack := env.decode(payload).value;
      PackDigestsCite(pack, digest);
      assert !pack.Obj? ==> !Cites(pack, digest);
    }
  }

  lemma PackDigestsCite(pack: Json, digest: string)
    ensures digest in PackDigests(pack) <==> Cites(pack, digest)
  {
    var got := Get(pack, "ingestion");
    if got.Some? {
      var ingestion := got.value;
      GetIsEntry(pack, "ingestion", ingestion);
      IngestionNames(ingestion, digest);
    }
    forall v | Has(pack, "ingestion", v) ensures got == Some(v) {
      GetIsEntry(pack, "ingestion", v);
    }
  }

  lemma IngestionNames(ingestion: Json, digest: string)
    ensures
      var sources := Get(ingestion, "sources");
      (digest in TextSet(Get(ingestion, "normalized_name_sets_blob_sha256"))
        || (sources.Some? && sources.value.Arr? && digest in SourceDigests(sources.value.items)))
      <==>
      (Names(ingestion, "normalized_name_sets_blob_sha256", digest)
        || exists items: seq<Json> :: Has(ingestion, "sources", Arr(items)) && SomeNames(items, digest))
  {
    TextSetNames(ingestion, "normalized_name_sets_blob_sha256", digest);
    var sources := Get(ingestion, "sources");
    if sources.Some? && sources.value.Arr? {
      GetIsEntry(ingestion, "sources", sources.value);
      SourcesName(sources.value.items, digest);
    }
    forall items: seq<Json> | Has(ingestion, "sources", Arr(items)) ensures sources == Some(Arr(items)) {
      GetIsEntry(ingestion, "sources", Arr(items));
    }
  }

  /** RESULT: a pack file expires exactly when it is intact, belongs to the customer if one is given, and was created
      before the cutoff by a time that can be read. */
  lemma ExpiredIff(env: Env, id: string, payload: string, cutoff: int, customer: Option<string>)
    ensures Expired(env, id, payload, cutoff, customer) <==>
      && env.sha256(payload) == id && env.decode(payload).Some?
      && (customer.None? || Has(env.decode(payload).value, "customer_id", Str(customer.value)))
      && exists created :: CreatedBefore(env, env.decode(payload).value, created, cutoff)
  {
    if env.decode(payload).Some? {
      var pack := env.decode(payload).value;
      if customer.Some? {
        GetIsEntry(pack, "customer_id", Str(customer.value));
      }
      var got := Get(pack, "created_at");
      if got.Some? && got.value.Str? {
        GetIsEntry(pack, "created_at", got.value);
        assert CreatedBefore(env, pack, got.value.text, cutoff) <==>
          env.readTime(got.value.text).Some? && env.readTime(got.value.text).value < cutoff;
      }
      forall created | CreatedBefore(env, pack, created, cutoff) ensures got == Some(Str(created)) {
        GetIsEntry(pack, "created_at", Str(created));
      }
    }
  }

  ghost predicate CreatedBefore(env: Env, pack: Json, created: string, cutoff: int) {
    && pack.Obj? && Has(pack, "created_at", Str(created))
    && env.readTime(created).Some? && env.readTime(created).value < cutoff
  }
}
