/**
 * Publishing and restoring as the repository does them, call by call, while other participants
 * may act between any two calls and any call may fail.
 */
module ResearchRepository {
  import opened Prelude
  import opened Publication

  predicate Exact(f: Format, objects: Objects, key: Key, files: Files)
  {
    key in objects && key.part in files && f.fileSha(objects[key]) == f.fileSha(files[key.part])
  }

  /** What the store holds under this key is not what this file is. */
  predicate Differs(f: Format, objects: Objects, key: Key, files: Files)
  {
    key in objects && key.part in files && f.fileSha(objects[key]) != f.fileSha(files[key.part])
  }

  class B2Repository {
    var objects: Objects
    /** How many calls have failed. */
    ghost var failures: nat

    constructor ()
      ensures objects == map[]
    {
      objects, failures := map[], 0;
    }

    /** Between two calls of one participant all that is known of the others is this. */
    method Others(f: Format)
      requires StoreOk(f, objects)
      modifies this`objects
      ensures StoreOk(f, objects) && old(objects).Keys <= objects.Keys
    {
    }

    /** One remote call, or its failure. */
    method Reach() returns (up: bool)
      modifies this`failures
      ensures failures == old(failures) + if up then 0 else 1
    {
      up := *;
      if !up { failures := failures + 1; }
    }

    method ObjectExists(f: Format, key: Key) returns (found: Option<bool>)
      requires StoreOk(f, objects)
      modifies this
      ensures StoreOk(f, objects) && old(objects).Keys <= objects.Keys
      ensures found.Some? ==> (found.value <==> key in objects)
      ensures failures == old(failures) + if found.None? then 1 else 0
    {
      Others(f);
      var up := Reach();
      return if up then Some(key in objects) else None;
    }

    method Download(f: Format, key: Key) returns (bytes: Option<Bytes>)
      requires StoreOk(f, objects)
      modifies this
      ensures StoreOk(f, objects) && old(objects).Keys <= objects.Keys
      ensures bytes.Some? ==> key in objects && bytes.value == objects[key]
      ensures old(failures) <= failures && (bytes.None? ==> key !in objects || failures > old(failures))
      ensures bytes.Some? ==> failures == old(failures)
    {
      Others(f);
      var up := Reach();
      return if up && key in objects then Some(objects[key]) else None;
    }

    /** A put writes only what the key stands for, and a manifest only when the rest is there. */
    method Put(f: Format, key: Key, bytes: Bytes) returns (ok: bool)
      requires StoreOk(f, objects) && Conforms(f, key, bytes)
      requires key.part == ManifestFile ==> forall part :: part != ManifestFile ==> Key(key.prefix, part) in objects
      modifies this
      ensures StoreOk(f, objects) && old(objects).Keys <= objects.Keys
      ensures ok ==> key in objects && objects[key] == bytes
      ensures failures == old(failures) + if ok then 0 else 1
    {
      hide Conforms;
      Others(f);
      ok := Reach();
      if ok {
        objects := objects[key := bytes];
      }
    }

    /**
     * Create the object, or reuse it only when a readback hashes to the expected digest.  Without a
     * failed call it refuses only what does not.
     */
    method EnsureExactObject(f: Format, key: Key, bytes: Bytes, expectedSha: Digest) returns (exact: bool)
      requires StoreOk(f, objects) && Conforms(f, key, bytes)
      requires key.part == ManifestFile ==> forall part :: part != ManifestFile ==> Key(key.prefix, part) in objects
      modifies this
      ensures StoreOk(f, objects) && old(objects).Keys <= objects.Keys
      ensures exact ==> key in objects && f.fileSha(objects[key]) == expectedSha && failures == old(failures)
      ensures old(failures) <= failures
      ensures !exact && failures == old(failures) ==> key in objects && f.fileSha(objects[key]) != expectedSha
    {
      hide Conforms, StoreOk;
      var found := ObjectExists(f, key);
      if found.None? { return false; }
      if !found.value {
        var ok := Put(f, key, bytes);
        if !ok { return false; }
      }
      var readback := Download(f, key);
      exact := readback.Some? && f.fileSha(readback.value) == expectedSha;
    }

    /**
     * Data, checksums, then the manifest as commit marker; the first failure ends it.  Unless a call
     * fails it ends early only at a part for which the store holds something else.
     */
    method Publish(f: Format, files: Files) returns (secured: nat, verified: Option<Manifest>)
      requires StoreOk(f, objects)
      modifies this
      ensures StoreOk(f, objects) && old(objects).Keys <= objects.Keys
      ensures verified == VerifyBundle(f, files) && secured <= 6
      ensures verified.None? ==> secured == 0 && objects == old(objects)
      ensures verified.Some? ==>
        forall i :: 0 <= i < secured ==> Key(verified.value.payload.objectPrefix, PlanPart(i)) in objects
      ensures secured == 6 ==> Exact(f, objects, Key(verified.value.payload.objectPrefix, ManifestFile), files)
      ensures verified.Some? && secured < 6 && failures == old(failures) ==>
        Differs(f, objects, Key(verified.value.payload.objectPrefix, PlanPart(secured)), files)
      ensures verified.Some? && CollisionFree(f) ==>
        forall part: Part :: part.Partition? && Rank(part) < secured ==>
          Exact(f, objects, Key(verified.value.payload.objectPrefix, part), files)
      ensures verified.Some? && CollisionFree(f) && failures == old(failures) ==> secured >= 4
      ensures secured == 6 && CollisionFree(f) ==>
        VerifyBundle(f, FilesAt(objects, verified.value.payload.objectPrefix)).Some?
    {
      hide VerifyBundle, Conforms, StoreOk, CollisionFree, Rank, FilesAt;
      secured := 0;
      verified := VerifyBundle(f, files);
      if verified.None? { return; }
      var prefix := verified.value.payload.objectPrefix;
      ghost var self := Publisher(files, prefix, 0, Looking);
      var exact := true;
      while secured < 6 && exact
        invariant secured <= 6 && StoreOk(f, objects) && old(objects).Keys <= objects.Keys
        invariant forall i :: 0 <= i < secured ==> Key(prefix, PlanPart(i)) in objects
        invariant secured == 6 ==> exact && Exact(f, objects, Key(prefix, ManifestFile), files)
        invariant exact ==> failures == old(failures)
        invariant !exact && failures == old(failures) ==> Differs(f, objects, Key(prefix, PlanPart(secured)), files)
        invariant old(failures) <= failures
        decreases 6 - secured, exact
      {
        LocalConforms(f, self, secured);
        if secured == 5 {
          AllParts(prefix, objects);
        }
        var part := PlanPart(secured);
        exact := EnsureExactObject(f, Key(prefix, part), files[part], f.fileSha(files[part]));
        if exact { secured := secured + 1; }
      }
      if CollisionFree(f) {
        PartitionsAreOurs(f, objects, self, secured);
        if secured == 6 { StoredBundleVerifies(f, objects, prefix); }
      }
    }
  }

  /** In a safe store the partitions at a verified bundle's prefix are that bundle's. */
  lemma PartitionsAreOurs(f: Format, objects: Objects, p: Publisher, secured: nat)
    requires CollisionFree(f) && StoreOk(f, objects) && Verified(f, p) && secured <= 6
    requires forall i :: 0 <= i < secured ==> Key(p.prefix, PlanPart(i)) in objects
    ensures forall part: Part :: part.Partition? && Rank(part) < secured ==>
      Exact(f, objects, Key(p.prefix, part), p.files)
    ensures secured < 4 ==> !Differs(f, objects, Key(p.prefix, PlanPart(secured)), p.files)
  {
    hide CollisionFree, StoreOk, VerifyBundle, Rank, PlanPart;
    forall part: Part | part.Partition? && Key(p.prefix, part) in objects
      ensures Exact(f, objects, Key(p.prefix, part), p.files)
    {
      PlaceOfPart(part);
      PlaceIsRank(Rank(part));
      LocalConforms(f, p, Rank(part));
      RefusedExactly(f, objects, Publisher(p.files, p.prefix, Rank(part), Reading));
    }
    forall part: Part | part.Partition? && Rank(part) < secured ensures Key(p.prefix, part) in objects {
      PlaceIsRank(Rank(part));
    }
    if secured < 4 {
      PlaceIsRank(secured);
      PlaceOfPart(PlanPart(secured));
    }
  }

  lemma PlaceOfPart(part: Part)
    ensures part.Partition? <==> Rank(part) < 4
    ensures Rank(part) < 6
  {
  }

  /** A local directory a bundle is restored into; present only once it is complete. */
  class BundleCache {
    var files: Option<Files>

    constructor ()
      ensures files == None
    {
      files := None;
    }

    /**
     * A valid cache is reused as it is, an invalid one is refused; otherwise download, verify, rename.
     * Once the manifest is visible a restore without a failed call succeeds exactly when it names the symbol.
     */
    method Restore(f: Format, repository: B2Repository, symbol: string, fingerprint: Digest)
      returns (bundle: Option<Manifest>, cacheHit: bool)
      requires StoreOk(f, repository.objects)
      modifies this, repository
      ensures StoreOk(f, repository.objects) && old(repository.objects).Keys <= repository.objects.Keys
      ensures bundle.Some? ==> files.Some? && Accepts(f, symbol, fingerprint, files.value) == bundle
      ensures old(files).Some? ==> files == old(files) && repository.objects == old(repository.objects)
      ensures bundle.None? ==> files == old(files)
      ensures cacheHit <==> bundle.Some? && old(files).Some?
      ensures old(files).Some? ==> bundle == Accepts(f, symbol, fingerprint, old(files).value)
      ensures old(repository.failures) <= repository.failures
      ensures old(files).None? && RestorePrefix(symbol, fingerprint).None? ==> bundle.None?
      ensures var prefix := RestorePrefix(symbol, fingerprint);
        old(files).None? && prefix.Some? && CollisionFree(f) && repository.failures == old(repository.failures)
        && Key(prefix.value, ManifestFile) in old(repository.objects) ==>
          (bundle.Some? <==> NamesSymbol(f, old(repository.objects)[Key(prefix.value, ManifestFile)], symbol))
    {
      hide Accepts, RemoteIdentity, StoreOk, RestorePrefix, Fetched, CollisionFree, NamesSymbol, Conforms;
      if files.Some? {
        bundle := Accepts(f, symbol, fingerprint, files.value);
        return bundle, bundle.Some?;
      }
      var prefix := RestorePrefix(symbol, fingerprint);
      if prefix.None? { return None, false; }
      var temp: Files, at := map[], 0;
      ghost var visible := Key(prefix.value, ManifestFile) in repository.objects;
      ghost var named := visible && NamesSymbol(f, repository.objects[Key(prefix.value, ManifestFile)], symbol);
      ghost var first := repository.objects;
      NothingFetched(f, symbol, fingerprint);
      while at < 6
        invariant 0 <= at <= 6 && files == None && StoreOk(f, repository.objects)
        invariant old(repository.objects).Keys <= repository.objects.Keys
        invariant old(repository.failures) <= repository.failures
        invariant Fetched(f, Restorer(symbol, fingerprint, None, temp, at, Downloading))
        invariant at > 0 && visible && CollisionFree(f) ==> named
      {
        var part := DownloadPart(at);
        var bytes := repository.Download(f, Key(prefix.value, part));
        if bytes.None? || (at == 0 && !RemoteIdentity(f, symbol, prefix.value, bytes.value)) {
          if visible && bytes.None? { PartVisible(f, first, repository.objects, prefix.value, part); }
          if visible && CollisionFree(f) && bytes.Some? {
            NamedIsAccepted(f, first, repository.objects, symbol, fingerprint);
          }
          return None, false;
        }
        if visible && CollisionFree(f) && at == 0 {
          NamedIsAccepted(f, first, repository.objects, symbol, fingerprint);
        }
        OneMoreFetched(f, repository.objects, symbol, fingerprint, temp, at);
        temp := temp[part := bytes.value];
        at := at + 1;
      }
      bundle := Accepts(f, symbol, fingerprint, temp);
      if CollisionFree(f) { AllFetched(f, symbol, fingerprint, temp); }
      if bundle.None? || bundle.value.payload.objectPrefix != prefix.value { return None, false; }
      files := Some(temp);
      cacheHit := false;
    }
  }

  lemma NothingFetched(f: Format, symbol: string, fingerprint: Digest)
    requires RestorePrefix(symbol, fingerprint).Some?
    ensures Fetched(f, Restorer(symbol, fingerprint, None, map[], 0, Downloading))
  {
  }

  lemma OneMoreFetched(f: Format, objects: Objects, symbol: string, fingerprint: Digest, temp: Files, at: nat)
    requires at < 6 && StoreOk(f, objects) && Fetched(f, Restorer(symbol, fingerprint, None, temp, at, Downloading))
    requires var prefix := RestorePrefix(symbol, fingerprint).value;
      && Key(prefix, DownloadPart(at)) in objects
      && (at == 0 ==> RemoteIdentity(f, symbol, prefix, objects[Key(prefix, DownloadPart(at))]))
    ensures var prefix := RestorePrefix(symbol, fingerprint).value;
      Fetched(f, Restorer(symbol, fingerprint, None,
                          temp[DownloadPart(at) := objects[Key(prefix, DownloadPart(at))]], at + 1, Downloading))
  {
    hide Conforms, RemoteIdentity, RestorePrefix;
    assert DownloadPart(0) == ManifestFile;
    assert at > 0 ==> DownloadPart(at) != ManifestFile;
  }

  lemma AllFetched(f: Format, symbol: string, fingerprint: Digest, temp: Files)
    requires CollisionFree(f) && Fetched(f, Restorer(symbol, fingerprint, None, temp, 6, Downloading))
    ensures RestorePrefix(symbol, fingerprint).Some? && Accepts(f, symbol, fingerprint, temp).Some?
    ensures Accepts(f, symbol, fingerprint, temp).value.payload.objectPrefix == RestorePrefix(symbol, fingerprint).value
  {
    hide Accepts, Fetched, RestorePrefix, CollisionFree;
    FetchedSucceeds(f, Restorer(symbol, fingerprint, None, temp, 6, Downloading));
  }

  /** Where a manifest was visible every part still is. */
  lemma PartVisible(f: Format, first: Objects, objects: Objects, prefix: Prefix, part: Part)
    requires StoreOk(f, objects) && first.Keys <= objects.Keys && Key(prefix, ManifestFile) in first
    ensures Key(prefix, part) in objects
  {
    hide Conforms;
    assert Key(prefix, ManifestFile) in objects;
  }

  /** Whatever manifest is read there, it names the symbol exactly when the first one did. */
  lemma NamedIsAccepted(f: Format, first: Objects, objects: Objects, symbol: string, fingerprint: Digest)
    requires CollisionFree(f) && StoreOk(f, first) && StoreOk(f, objects) && first.Keys <= objects.Keys
    requires RestorePrefix(symbol, fingerprint).Some?
    requires Key(RestorePrefix(symbol, fingerprint).value, ManifestFile) in first
    ensures var key := Key(RestorePrefix(symbol, fingerprint).value, ManifestFile);
      && key in objects
      && (RemoteIdentity(f, symbol, key.prefix, objects[key]) <==> NamesSymbol(f, first[key], symbol))
  {
    hide RestorePrefix, ChecksumsMatch, PartitionMatches;
    PrefixFingerprint(symbol, fingerprint);
    var key := Key(RestorePrefix(symbol, fingerprint).value, ManifestFile);
    assert key in objects;
    assert Conforms(f, key, first[key]) && Conforms(f, key, objects[key]);
    var a, b := f.readManifest(first[key]).value.payload.identity, f.readManifest(objects[key]).value.payload.identity;
    assert f.identitySha(a) == f.identitySha(b);
  }
}
