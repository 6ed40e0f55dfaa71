/**
 * Content-addressed publication of research bundles: what makes a bundle valid, and the
 * interleaved steps of any number of publishers and restorers over one object store.
 */
module Publication {
  import opened Prelude

  type Bytes = seq<bv8>
  type Digest = string

  datatype Frame = F15m | F1h | F4h | F1d

  const FRAMES := [F15m, F1h, F4h, F1d]

  function FrameName(frame: Frame): string
  {
    match frame
    case F15m => "15m"
    case F1h => "1h"
    case F4h => "4h"
    case F1d => "1d"
  }

  function RelativePath(frame: Frame): string { "parquet/" + FrameName(frame) + ".parquet" }

  datatype Entry = Entry(rowCount: int, sourceSha: Digest, parquetFile: string, parquetSha: Digest)

  /** Everything the dataset fingerprint covers. */
  datatype Identity = Identity(
    schemaVersion: int, tier: string, storageFormat: string, compression: string, provider: string,
    symbol: string, requestedStart: string, requestedEnd: string, datasetVersion: string,
    sourceBundleFingerprint: Digest, sourceManifestFingerprint: Digest, gitRevision: string, writer: string,
    timeframes: map<Frame, Entry>)

  datatype Prefix = Prefix(slug: string, fingerprint: Digest)

  /** Everything the manifest fingerprint covers; extra holds keys no check names. */
  datatype Payload = Payload(
    identity: Identity, datasetFingerprint: Digest, objectPrefix: Prefix, qualification: string,
    immutability: string, commitProtocol: string, extra: map<string, string>)

  datatype Manifest = Manifest(payload: Payload, manifestFingerprint: Digest)

  /** Hashing and JSON reading, which the protocol uses but does not define. */
  datatype Format = Format(
    fileSha: Bytes -> Digest,
    identitySha: Identity -> Digest,
    payloadSha: Payload -> Digest,
    readManifest: Bytes -> Option<Manifest>,
    readChecksums: Bytes -> Option<map<string, Digest>>)

  /** No two files, and no two identities, share a digest. */
  ghost predicate CollisionFree(f: Format)
  {
    && (forall a, b :: f.fileSha(a) == f.fileSha(b) ==> a == b)
    && (forall a, b :: f.identitySha(a) == f.identitySha(b) ==> a == b)
  }

  datatype Part = Partition(frame: Frame) | ChecksumsFile | ManifestFile

  type Files = map<Part, Bytes>

  datatype Key = Key(prefix: Prefix, part: Part)

  function Lower(c: char): char
  {
    if 'A' <= c <= 'Z' then c - 'A' + 'a' else if c == '/' || c == '_' then '-' else c
  }

  function Slug(symbol: string): string
  {
    seq(|symbol|, i requires 0 <= i < |symbol| => Lower(symbol[i]))
  }

  function ExpectedPrefix(symbol: string, fingerprint: Digest): Prefix
  {
    Prefix(Slug(symbol), fingerprint)
  }

  /** The stricter form a restorer derives its paths with. */
  function RestorePrefix(symbol: string, fingerprint: Digest): Option<Prefix>
  {
    if && |fingerprint| == 64 && (forall i :: 0 <= i < 64 ==> fingerprint[i] in "0123456789abcdef")
       && symbol != ""
       && forall i :: 0 <= i < |Slug(symbol)| ==> Slug(symbol)[i] in "abcdefghijklmnopqrstuvwxyz0123456789-"
    then Some(ExpectedPrefix(symbol, fingerprint)) else None
  }

  // ------------------------------------------------------------------ verification

  predicate FixedTerms(p: Payload)
  {
    && p.identity.schemaVersion == 1 && p.identity.tier == "gold" && p.identity.storageFormat == "parquet"
    && p.identity.compression == "zstd" && p.qualification == "RESEARCH_PAPER_ONLY"
    && p.immutability == "CONTENT_ADDRESSED_EXACT_RETRY"
    && p.commitProtocol == "DATA_THEN_CHECKSUMS_THEN_MANIFEST_LAST"
  }

  predicate ValidManifest(f: Format, m: Manifest)
  {
    var p := m.payload;
    && f.payloadSha(p) == m.manifestFingerprint && FixedTerms(p)
    && f.identitySha(p.identity) == p.datasetFingerprint
    && ExpectedPrefix(p.identity.symbol, p.datasetFingerprint) == p.objectPrefix
    && p.identity.timeframes.Keys == {F15m, F1h, F4h, F1d}
    && forall frame :: frame in p.identity.timeframes ==>
         p.identity.timeframes[frame].parquetFile == RelativePath(frame)
  }

  predicate PartitionMatches(f: Format, identity: Identity, frame: Frame, bytes: Bytes)
  {
    frame in identity.timeframes && f.fileSha(bytes) == identity.timeframes[frame].parquetSha
  }

  predicate ChecksumsMatch(f: Format, identity: Identity, bytes: Bytes)
  {
    var c := f.readChecksums(bytes);
    && c.Some?
    && (forall path :: path in c.value ==> exists frame :: frame in identity.timeframes && path == RelativePath(frame))
    && (forall frame :: frame in identity.timeframes ==>
          RelativePath(frame) in c.value && c.value[RelativePath(frame)] == identity.timeframes[frame].parquetSha)
  }

  /** The manifest of a bundle directory all of whose files agree with it. */
  function VerifyBundle(f: Format, files: Files): Option<Manifest>
  {
    if ManifestFile !in files then None
    else
      var m := f.readManifest(files[ManifestFile]);
      if m.None? || !ValidManifest(f, m.value) then None
      else if exists frame :: frame in m.value.payload.identity.timeframes
                              && (Partition(frame) !in files
                                  || !PartitionMatches(f, m.value.payload.identity, frame, files[Partition(frame)]))
      then None
      else if ChecksumsFile !in files || !ChecksumsMatch(f, m.value.payload.identity, files[ChecksumsFile]) then None
      else m
  }

  lemma FramesAreAll(frame: Frame)
    ensures frame in {F15m, F1h, F4h, F1d}
    ensures exists i :: 0 <= i < 4 && FRAMES[i] == frame
  {
    match frame
    case F15m => assert FRAMES[0] == frame;
    case F1h => assert FRAMES[1] == frame;
    case F4h => assert FRAMES[2] == frame;
    case F1d => assert FRAMES[3] == frame;
  }

  /** A bundle is complete: a valid manifest, its four partitions and its checksum file. */
  lemma VerifiedHolds(f: Format, files: Files)
    requires VerifyBundle(f, files).Some?
    ensures var m := VerifyBundle(f, files).value;
      && ManifestFile in files && f.readManifest(files[ManifestFile]) == Some(m) && ValidManifest(f, m)
      && (forall frame: Frame ::
            Partition(frame) in files && PartitionMatches(f, m.payload.identity, frame, files[Partition(frame)]))
      && ChecksumsFile in files && ChecksumsMatch(f, m.payload.identity, files[ChecksumsFile])
  {
    hide ChecksumsMatch;
    var m := VerifyBundle(f, files).value;
    forall frame: Frame
      ensures Partition(frame) in files && PartitionMatches(f, m.payload.identity, frame, files[Partition(frame)])
    {
      FramesAreAll(frame);
    }
  }

  /** The text with slashes and underscores as dashes, in lower case. */
  ghost predicate IsSlug(slug: string, symbol: string)
  {
    |slug| == |symbol|
    && forall i :: 0 <= i < |slug| ==>
         if symbol[i] in "/_" then slug[i] == '-'
         else if 'A' <= symbol[i] <= 'Z' then slug[i] as int == symbol[i] as int + 32
         else slug[i] == symbol[i]
  }

  /** The rules for a manifest and the files beside it, one by one. */
  ghost predicate Complies(f: Format, files: Files, m: Manifest)
  {
    var (p, id, frames) := (m.payload, m.payload.identity, m.payload.identity.timeframes);
    && f.payloadSha(p) == m.manifestFingerprint && f.identitySha(id) == p.datasetFingerprint
    && id.schemaVersion == 1 && id.tier == "gold" && id.storageFormat == "parquet" && id.compression == "zstd"
    && p.qualification == "RESEARCH_PAPER_ONLY" && p.immutability == "CONTENT_ADDRESSED_EXACT_RETRY"
    && p.commitProtocol == "DATA_THEN_CHECKSUMS_THEN_MANIFEST_LAST"
    && p.objectPrefix.fingerprint == p.datasetFingerprint && IsSlug(p.objectPrefix.slug, id.symbol)
    && frames.Keys == {F15m, F1h, F4h, F1d}
    && frames[F15m].parquetFile == "parquet/15m.parquet" && frames[F1h].parquetFile == "parquet/1h.parquet"
    && frames[F4h].parquetFile == "parquet/4h.parquet" && frames[F1d].parquetFile == "parquet/1d.parquet"
    && (forall frame :: frame in frames ==>
          Partition(frame) in files && f.fileSha(files[Partition(frame)]) == frames[frame].parquetSha)
    && ChecksumsFile in files
    && f.readChecksums(files[ChecksumsFile]) == Some(map[
         "parquet/15m.parquet" := frames[F15m].parquetSha, "parquet/1h.parquet" := frames[F1h].parquetSha,
         "parquet/4h.parquet" := frames[F4h].parquetSha, "parquet/1d.parquet" := frames[F1d].parquetSha])
  }

  lemma SlugExactly(slug: string, symbol: string)
    ensures slug == Slug(symbol) <==> IsSlug(slug, symbol)
  {
    if IsSlug(slug, symbol) {
      forall i | 0 <= i < |slug| ensures slug[i] == Slug(symbol)[i] { }
    }
  }

  lemma PathsDiffer()
    ensures RelativePath(F15m) == "parquet/15m.parquet" && RelativePath(F1h) == "parquet/1h.parquet"
    ensures RelativePath(F4h) == "parquet/4h.parquet" && RelativePath(F1d) == "parquet/1d.parquet"
    ensures forall a, b :: RelativePath(a) == RelativePath(b) ==> a == b
  {
    assert RelativePath(F15m)[8] == '1' && RelativePath(F1h)[8] == '1' && RelativePath(F1d)[8] == '1';
    assert RelativePath(F15m)[9] == '5' && RelativePath(F1h)[9] == 'h' && RelativePath(F1d)[9] == 'd';
    assert RelativePath(F4h)[8] == '4';
  }

  /** The checksum file says what it should exactly when it is this map. */
  lemma ChecksumsExactly(f: Format, identity: Identity, bytes: Bytes)
    requires identity.timeframes.Keys == {F15m, F1h, F4h, F1d}
    ensures ChecksumsMatch(f, identity, bytes) <==> f.readChecksums(bytes) == Some(map[
      RelativePath(F15m) := identity.timeframes[F15m].parquetSha,
      RelativePath(F1h) := identity.timeframes[F1h].parquetSha,
      RelativePath(F4h) := identity.timeframes[F4h].parquetSha,
      RelativePath(F1d) := identity.timeframes[F1d].parquetSha])
  {
    hide RelativePath;
    PathsDiffer();
    var wanted := map[
      RelativePath(F15m) := identity.timeframes[F15m].parquetSha,
      RelativePath(F1h) := identity.timeframes[F1h].parquetSha,
      RelativePath(F4h) := identity.timeframes[F4h].parquetSha,
      RelativePath(F1d) := identity.timeframes[F1d].parquetSha];
    if ChecksumsMatch(f, identity, bytes) {
      var c := f.readChecksums(bytes).value;
      assert forall path :: path in c <==> path in wanted;
      assert c == wanted;
    }
  }

  /** A bundle verifies exactly when its manifest can be read and it complies with every rule. */
  lemma VerifiesExactly(f: Format, files: Files, m: Manifest)
    ensures VerifyBundle(f, files) == Some(m)
      <==> ManifestFile in files && f.readManifest(files[ManifestFile]) == Some(m) && Complies(f, files, m)
  {
    hide ChecksumsMatch, RelativePath, Slug;
    PathsDiffer();
    SlugExactly(m.payload.objectPrefix.slug, m.payload.identity.symbol);
    if m.payload.identity.timeframes.Keys == {F15m, F1h, F4h, F1d} && ChecksumsFile in files {
      ChecksumsExactly(f, m.payload.identity, files[ChecksumsFile]);
    }
    if VerifyBundle(f, files) == Some(m) { VerifiedHolds(f, files); }
  }

  /** Paths are derived exactly for 64 digits of lower-case hexadecimal and a symbol of letters, digits, / _ -. */
  lemma RestorePrefixExactly(symbol: string, fingerprint: Digest)
    ensures RestorePrefix(symbol, fingerprint).Some? <==>
      && |fingerprint| == 64
      && (forall i :: 0 <= i < 64 ==> '0' <= fingerprint[i] <= '9' || 'a' <= fingerprint[i] <= 'f')
      && symbol != ""
      && forall i :: 0 <= i < |symbol| ==>
           'a' <= symbol[i] <= 'z' || 'A' <= symbol[i] <= 'Z' || '0' <= symbol[i] <= '9' || symbol[i] in "/_-"
    ensures RestorePrefix(symbol, fingerprint).Some? ==>
      RestorePrefix(symbol, fingerprint).value.fingerprint == fingerprint
      && IsSlug(RestorePrefix(symbol, fingerprint).value.slug, symbol)
  {
    SlugExactly(Slug(symbol), symbol);
    forall c: char ensures c in "0123456789abcdef" <==> '0' <= c <= '9' || 'a' <= c <= 'f' { HexDigit(c); }
    forall c: char
      ensures c in "abcdefghijklmnopqrstuvwxyz0123456789-" <==> 'a' <= c <= 'z' || '0' <= c <= '9' || c == '-'
    {
      SlugLetter(c);
    }
    forall i | 0 <= i < |symbol|
      ensures Slug(symbol)[i] in "abcdefghijklmnopqrstuvwxyz0123456789-" <==>
        'a' <= symbol[i] <= 'z' || 'A' <= symbol[i] <= 'Z' || '0' <= symbol[i] <= '9' || symbol[i] in "/_-"
    {
    }
  }

  lemma HexDigit(c: char)
    ensures c in "0123456789abcdef" <==> '0' <= c <= '9' || 'a' <= c <= 'f'
  {
    var digits := "0123456789abcdef";
    if '0' <= c <= '9' { assert digits[c as int - 48] == c; }
    if 'a' <= c <= 'f' { assert digits[c as int - 87] == c; }
  }

  lemma FirstLetters(c: char)
    ensures c in "abcdefghijklm" <==> 'a' <= c <= 'm'
  {
    if 'a' <= c <= 'm' { assert "abcdefghijklm"[c as int - 97] == c; }
  }

  lemma LastLetters(c: char)
    ensures c in "nopqrstuvwxyz" <==> 'n' <= c <= 'z'
  {
    if 'n' <= c <= 'z' { assert "nopqrstuvwxyz"[c as int - 110] == c; }
  }

  lemma DigitsAndDash(c: char)
    ensures c in "0123456789-" <==> '0' <= c <= '9' || c == '-'
  {
    if '0' <= c <= '9' { assert "0123456789-"[c as int - 48] == c; }
    if c == '-' { assert "0123456789-"[10] == c; }
  }

  lemma SlugLetter(c: char)
    ensures c in "abcdefghijklmnopqrstuvwxyz0123456789-" <==> 'a' <= c <= 'z' || '0' <= c <= '9' || c == '-'
  {
    FirstLetters(c);
    LastLetters(c);
    DigitsAndDash(c);
    assert "abcdefghijklmnopqrstuvwxyz0123456789-" == "abcdefghijklm" + "nopqrstuvwxyz" + "0123456789-";
  }

  // ----------------------------------------------------------- publishers, step by step

  type Objects = map<Key, Bytes>

  /** Data first, then the checksums, and the manifest last. */
  function PlanPart(i: nat): Part
    requires i < 6
  {
    if i < 4 then Partition(FRAMES[i]) else if i == 4 then ChecksumsFile else ManifestFile
  }

  datatype Phase = Looking | Putting | Reading | Failed | Published

  /** A publisher of a bundle verified before it started: how many parts it has secured. */
  datatype Publisher = Publisher(files: Files, prefix: Prefix, secured: nat, phase: Phase)

  ghost predicate Verified(f: Format, p: Publisher)
  {
    VerifyBundle(f, p.files).Some? && VerifyBundle(f, p.files).value.payload.objectPrefix == p.prefix
    && (p.secured < 6 || p.phase == Published)
  }

  function CurrentKey(p: Publisher): Key
    requires p.secured < 6
  {
    Key(p.prefix, PlanPart(p.secured))
  }

  /** The hash a readback has to have; for a partition the manifest names the same one. */
  function ExpectedSha(f: Format, p: Publisher): Digest
    requires p.secured < 6 && PlanPart(p.secured) in p.files
  {
    f.fileSha(p.files[PlanPart(p.secured)])
  }

  function Secured(p: Publisher): Publisher
  {
    p.(secured := p.secured + 1, phase := if p.secured == 5 then Published else Looking)
  }

  /** What reading the object back makes of the publisher: a wrong or missing object refuses it. */
  function Readback(f: Format, objects: Objects, p: Publisher): Publisher
    requires p.secured < 6 && PlanPart(p.secured) in p.files
  {
    if CurrentKey(p) in objects && f.fileSha(objects[CurrentKey(p)]) == ExpectedSha(f, p) then Secured(p)
    else p.(phase := Failed)
  }

  /** One remote call of a publisher, or its failure: ensure_exact_object taken apart. */
  ghost predicate PublisherStep(f: Format, before: Objects, p: Publisher, after: Objects, q: Publisher)
  {
    if p.phase in {Failed, Published} || p.secured >= 6 || PlanPart(p.secured) !in p.files
    then after == before && q == p
    else
      var key := CurrentKey(p);
      || (after == before && q == p.(phase := Failed))
      || (p.phase == Looking && after == before && q == p.(phase := if key in before then Reading else Putting))
      || (p.phase == Putting && after == before[key := p.files[key.part]] && q == p.(phase := Reading))
      || (p.phase == Reading && after == before && q == Readback(f, before, p))
  }

  // ----------------------------------------------------------- restorers, step by step

  datatype RestorePhase = Starting | Downloading | Refused | Restored(manifest: Manifest, cacheHit: bool)

  /** A restorer of one dataset into one directory; cache is what the directory holds. */
  datatype Restorer = Restorer(
    symbol: string, fingerprint: Digest, cache: Option<Files>, temp: Files, at: nat, phase: RestorePhase)

  function DownloadPart(i: nat): Part
    requires i < 6
  {
    if i == 0 then ManifestFile else if i == 1 then ChecksumsFile else Partition(FRAMES[i - 2])
  }

  /** The bundle in these files is the one asked for. */
  function Accepts(f: Format, symbol: string, fingerprint: Digest, files: Files): Option<Manifest>
  {
    match VerifyBundle(f, files)
    case None => None
    case Some(m) =>
      if m.payload.datasetFingerprint == fingerprint && m.payload.identity.symbol == symbol then Some(m) else None
  }

  /** The early look at a downloaded manifest, before the rest is fetched. */
  predicate RemoteIdentity(f: Format, symbol: string, prefix: Prefix, bytes: Bytes)
  {
    var m := f.readManifest(bytes);
    && m.Some? && m.value.payload.identity.symbol == symbol
    && m.value.payload.datasetFingerprint == prefix.fingerprint && m.value.payload.objectPrefix == prefix
    && m.value.payload.qualification == "RESEARCH_PAPER_ONLY"
    && m.value.payload.identity.timeframes.Keys == {F15m, F1h, F4h, F1d}
    && forall frame :: frame in m.value.payload.identity.timeframes ==>
         m.value.payload.identity.timeframes[frame].parquetFile == RelativePath(frame)
  }

  function Begin(f: Format, r: Restorer): Restorer
  {
    match r.cache
    case Some(files) =>
      (match Accepts(f, r.symbol, r.fingerprint, files)
       case Some(m) => r.(phase := Restored(m, true))
       case None => r.(phase := Refused))
    case None =>
      if RestorePrefix(r.symbol, r.fingerprint).None? then r.(phase := Refused)
      else r.(temp := map[], at := 0, phase := Downloading)
  }

  function Download(f: Format, objects: Objects, r: Restorer): Restorer
    requires r.at < 6
  {
    var prefix := RestorePrefix(r.symbol, r.fingerprint);
    if prefix.None? || Key(prefix.value, DownloadPart(r.at)) !in objects then r.(temp := map[], phase := Refused)
    else
      var bytes := objects[Key(prefix.value, DownloadPart(r.at))];
      if r.at == 0 && !RemoteIdentity(f, r.symbol, prefix.value, bytes) then r.(temp := map[], phase := Refused)
      else r.(temp := r.temp[DownloadPart(r.at) := bytes], at := r.at + 1)
  }

  /** All parts are here: verify them, and only then put the directory in place. */
  function Finish(f: Format, r: Restorer): Restorer
  {
    var m := Accepts(f, r.symbol, r.fingerprint, r.temp);
    if m.None? || r.cache.Some? || Some(m.value.payload.objectPrefix) != RestorePrefix(r.symbol, r.fingerprint)
    then r.(temp := map[], phase := Refused)
    else r.(cache := Some(r.temp), temp := map[], phase := Restored(m.value, false))
  }

  ghost predicate RestorerStep(f: Format, objects: Objects, r: Restorer, q: Restorer)
  {
    || q == r.(temp := map[], phase := Starting)
    || (r.phase == Starting && q == Begin(f, r))
    || (r.phase == Downloading && r.at < 6 && q == Download(f, objects, r))
    || (r.phase == Downloading && r.at == 6 && q == Finish(f, r))
  }

  // ----------------------------------------------------------------- interleavings

  datatype World = World(objects: Objects, publishers: seq<Publisher>, restorers: seq<Restorer>)

  ghost predicate Init(f: Format, w: World)
  {
    && w.objects == map[]
    && (forall p :: p in w.publishers ==> Verified(f, p) && p.secured == 0 && p.phase == Looking)
    && (forall r :: r in w.restorers ==> r.cache == None && r.phase == Starting)
  }

  /** One step of one participant; the others stand still. */
  ghost predicate Next(f: Format, w: World, v: World)
  {
    || (exists i, q :: 0 <= i < |w.publishers|
                       && PublisherStep(f, w.objects, w.publishers[i], v.objects, q)
                       && v == w.(objects := v.objects, publishers := w.publishers[i := q]))
    || (exists i, q :: 0 <= i < |w.restorers|
                       && RestorerStep(f, w.objects, w.restorers[i], q)
                       && v == w.(restorers := w.restorers[i := q]))
  }

  ghost predicate Run(f: Format, worlds: seq<World>)
  {
    && worlds != [] && Init(f, worlds[0])
    && forall i :: 0 < i < |worlds| ==> Next(f, worlds[i - 1], worlds[i])
  }

  // ---------------------------------------------------------------------- safety

  /** The object is the one its content-addressed key can only stand for. */
  ghost predicate Conforms(f: Format, key: Key, bytes: Bytes)
  {
    exists identity: Identity ::
      f.identitySha(identity) == key.prefix.fingerprint
      && match key.part
         case Partition(frame) => PartitionMatches(f, identity, frame, bytes)
         case ChecksumsFile => ChecksumsMatch(f, identity, bytes)
         case ManifestFile =>
           var m := f.readManifest(bytes);
           m.Some? && ValidManifest(f, m.value) && m.value.payload.objectPrefix == key.prefix
           && m.value.payload.identity == identity
  }

  ghost predicate StoreOk(f: Format, objects: Objects)
  {
    && (forall key :: key in objects ==> Conforms(f, key, objects[key]))
    && (forall key, part :: key in objects && key.part == ManifestFile ==> Key(key.prefix, part) in objects)
  }

  /** The parts a publisher has secured are in the store. */
  ghost predicate PublisherOk(f: Format, objects: Objects, p: Publisher)
  {
    && Verified(f, p)
    && (forall i :: 0 <= i < p.secured && i < 6 ==> Key(p.prefix, PlanPart(i)) in objects)
  }

  /**
   * A cached or restored bundle is the verified one that was asked for, and what was downloaded so
   * far is what the derived keys stand for, beginning with a manifest of this dataset.
   */
  ghost predicate RestorerOk(f: Format, r: Restorer)
  {
    && (r.cache.Some? ==> Accepts(f, r.symbol, r.fingerprint, r.cache.value).Some?)
    && (r.phase.Restored? ==>
          r.cache.Some? && Accepts(f, r.symbol, r.fingerprint, r.cache.value) == Some(r.phase.manifest))
    && (r.phase.Downloading? ==> r.cache.None? && r.at <= 6 && Fetched(f, r))
  }

  ghost predicate Fetched(f: Format, r: Restorer)
    requires r.at <= 6
  {
    var prefix := RestorePrefix(r.symbol, r.fingerprint);
    && prefix.Some?
    && (forall i :: 0 <= i < r.at ==> DownloadPart(i) in r.temp)
    && (forall part :: part in r.temp ==> Conforms(f, Key(prefix.value, part), r.temp[part]))
    && (r.at > 0 ==> ManifestFile in r.temp && RemoteIdentity(f, r.symbol, prefix.value, r.temp[ManifestFile]))
  }

  ghost predicate Inv(f: Format, w: World)
  {
    && StoreOk(f, w.objects)
    && (forall i :: 0 <= i < |w.publishers| ==> PublisherOk(f, w.objects, w.publishers[i]))
    && (forall i :: 0 <= i < |w.restorers| ==> RestorerOk(f, w.restorers[i]))
  }

  /** What a publisher puts is what the key stands for. */
  lemma LocalConforms(f: Format, p: Publisher, i: nat)
    requires Verified(f, p) && i < 6
    ensures PlanPart(i) in p.files && Conforms(f, Key(p.prefix, PlanPart(i)), p.files[PlanPart(i)])
  {
    hide VerifyBundle, ChecksumsMatch, PartitionMatches;
    VerifiedHolds(f, p.files);
    var m := VerifyBundle(f, p.files).value;
    assert f.identitySha(m.payload.identity) == p.prefix.fingerprint;
  }

  lemma PublisherKeepsStore(f: Format, before: Objects, p: Publisher, after: Objects, q: Publisher)
    requires StoreOk(f, before) && PublisherOk(f, before, p) && PublisherStep(f, before, p, after, q)
    ensures StoreOk(f, after) && PublisherOk(f, after, q)
    ensures forall key :: key in before ==> key in after
  {
    hide Conforms, VerifyBundle;
    if p.secured < 6 {
      LocalConforms(f, p, p.secured);
      if after != before && p.secured == 5 {
        AllParts(p.prefix, before);
      }
    }
  }

  /** The five parts before the manifest are all there are. */
  lemma AllParts(prefix: Prefix, objects: Objects)
    requires forall i :: 0 <= i < 5 ==> Key(prefix, PlanPart(i)) in objects
    ensures forall part :: part != ManifestFile ==> Key(prefix, part) in objects
  {
    forall part: Part | part != ManifestFile ensures Key(prefix, part) in objects {
      if part.Partition? {
        FramesAreAll(part.frame);
        var i :| 0 <= i < 4 && FRAMES[i] == part.frame;
        assert PlanPart(i) == part;
      } else {
        assert PlanPart(4) == part;
      }
    }
  }

  lemma RestorerKeeps(f: Format, objects: Objects, r: Restorer, q: Restorer)
    requires StoreOk(f, objects) && RestorerOk(f, r) && RestorerStep(f, objects, r, q)
    ensures RestorerOk(f, q) && (r.cache.Some? ==> q.cache == r.cache)
    ensures q.symbol == r.symbol && q.fingerprint == r.fingerprint
  {
    hide VerifyBundle, Accepts, RemoteIdentity, RestorePrefix, Conforms;
    assert DownloadPart(0) == ManifestFile;
  }

  lemma NextKeeps(f: Format, w: World, v: World)
    requires Inv(f, w) && Next(f, w, v)
    ensures Inv(f, v) && forall key :: key in w.objects ==> key in v.objects
  {
    hide StoreOk, Verified, RestorerOk, PublisherStep, RestorerStep;
    if i, q :| 0 <= i < |w.publishers| && PublisherStep(f, w.objects, w.publishers[i], v.objects, q)
               && v == w.(objects := v.objects, publishers := w.publishers[i := q]) {
      PublisherKeepsStore(f, w.objects, w.publishers[i], v.objects, q);
    } else {
      var i, q :| 0 <= i < |w.restorers| && RestorerStep(f, w.objects, w.restorers[i], q)
                  && v == w.(restorers := w.restorers[i := q]);
      RestorerKeeps(f, w.objects, w.restorers[i], q);
    }
  }

  lemma {:induction false} RunKeeps(f: Format, worlds: seq<World>, n: nat)
    requires Run(f, worlds) && n < |worlds|
    ensures Inv(f, worlds[n])
  {
    hide Verified, Next;
    if n == 0 {
    } else {
      RunKeeps(f, worlds, n - 1);
      hide Inv;
      NextKeeps(f, worlds[n - 1], worlds[n]);
    }
  }

  function FilesAt(objects: Objects, prefix: Prefix): Files
  {
    map part | part in {Partition(F15m), Partition(F1h), Partition(F4h), Partition(F1d), ChecksumsFile, ManifestFile}
               && Key(prefix, part) in objects :: objects[Key(prefix, part)]
  }

  /** In every interleaving, a visible manifest means a complete bundle that verifies, with that fingerprint. */
  lemma ManifestMeansBundle(f: Format, worlds: seq<World>, n: nat, prefix: Prefix)
    requires CollisionFree(f) && Run(f, worlds) && n < |worlds|
    requires Key(prefix, ManifestFile) in worlds[n].objects
    ensures var found := VerifyBundle(f, FilesAt(worlds[n].objects, prefix));
      found.Some? && found.value.payload.objectPrefix == prefix
      && found.value.payload.datasetFingerprint == prefix.fingerprint
  {
    RunKeeps(f, worlds, n);
    StoredBundleVerifies(f, worlds[n].objects, prefix);
  }

  lemma SameIdentity(f: Format, key: Key, bytes: Bytes, identity: Identity)
    requires CollisionFree(f) && Conforms(f, key, bytes) && f.identitySha(identity) == key.prefix.fingerprint
    ensures key.part.Partition? ==> PartitionMatches(f, identity, key.part.frame, bytes)
    ensures key.part == ChecksumsFile ==> ChecksumsMatch(f, identity, bytes)
  {
    hide PartitionMatches, ChecksumsMatch;
  }

  /** Files that are each what their key stands for verify together, wherever they came from. */
  lemma ConformingFilesVerify(f: Format, prefix: Prefix, files: Files)
    requires CollisionFree(f)
    requires forall part: Part :: part in files && Conforms(f, Key(prefix, part), files[part])
    ensures var found := VerifyBundle(f, files);
      && found == f.readManifest(files[ManifestFile])
      && found.Some? && found.value.payload.objectPrefix == prefix
      && found.value.payload.datasetFingerprint == prefix.fingerprint
  {
    hide PartitionMatches, ChecksumsMatch, CollisionFree;
    assert Conforms(f, Key(prefix, ManifestFile), files[ManifestFile]);
    var m := f.readManifest(files[ManifestFile]).value;
    forall frame: Frame ensures PartitionMatches(f, m.payload.identity, frame, files[Partition(frame)]) {
      SameIdentity(f, Key(prefix, Partition(frame)), files[Partition(frame)], m.payload.identity);
    }
    SameIdentity(f, Key(prefix, ChecksumsFile), files[ChecksumsFile], m.payload.identity);
  }

  lemma StoredBundleVerifies(f: Format, objects: Objects, prefix: Prefix)
    requires CollisionFree(f) && StoreOk(f, objects) && Key(prefix, ManifestFile) in objects
    ensures var found := VerifyBundle(f, FilesAt(objects, prefix));
      && found == f.readManifest(objects[Key(prefix, ManifestFile)])
      && found.Some? && found.value.payload.objectPrefix == prefix
      && found.value.payload.datasetFingerprint == prefix.fingerprint
  {
    hide Conforms, CollisionFree, VerifyBundle;
    var files := FilesAt(objects, prefix);
    forall part: Part ensures part in files && files[part] == objects[Key(prefix, part)] {
      assert Key(prefix, part) in objects;
      if part.Partition? { FramesAreAll(part.frame); }
    }
    ConformingFilesVerify(f, prefix, files);
  }

  /** A restore that has fetched all six objects, at whatever moments, is never refused. */
  lemma FetchedRestoresSucceed(f: Format, worlds: seq<World>, n: nat, i: nat)
    requires CollisionFree(f) && Run(f, worlds) && n < |worlds| && i < |worlds[n].restorers|
    requires worlds[n].restorers[i].phase == Downloading && worlds[n].restorers[i].at == 6
    ensures Finish(f, worlds[n].restorers[i]).phase.Restored?
    ensures Finish(f, worlds[n].restorers[i]).cache == Some(worlds[n].restorers[i].temp)
  {
    hide Run, CollisionFree, Fetched, StoreOk, PublisherOk, Finish;
    RunKeeps(f, worlds, n);
    assert RestorerOk(f, worlds[n].restorers[i]);
    FetchedSucceeds(f, worlds[n].restorers[i]);
  }

  lemma FetchedSucceeds(f: Format, r: Restorer)
    requires CollisionFree(f) && r.at == 6 && r.cache.None? && Fetched(f, r)
    ensures Finish(f, r).phase.Restored? && Finish(f, r).cache == Some(r.temp)
  {
    hide Conforms, CollisionFree, VerifyBundle, RestorePrefix;
    forall part: Part ensures part in r.temp {
      if part.Partition? {
        FramesAreAll(part.frame);
        var k :| 0 <= k < 4 && FRAMES[k] == part.frame;
        assert DownloadPart(k + 2) == part;
      } else {
        assert DownloadPart(0) == ManifestFile && DownloadPart(1) == ChecksumsFile;
      }
    }
    PrefixFingerprint(r.symbol, r.fingerprint);
    ConformingFilesVerify(f, RestorePrefix(r.symbol, r.fingerprint).value, r.temp);
  }

  lemma PrefixFingerprint(symbol: string, fingerprint: Digest)
    ensures var p := RestorePrefix(symbol, fingerprint); p.Some? ==> p.value.fingerprint == fingerprint
  {
  }

  predicate NamesSymbol(f: Format, bytes: Bytes, symbol: string)
  {
    var m := f.readManifest(bytes);
    m.Some? && m.value.payload.identity.symbol == symbol
  }

  /** Once the manifest is visible, a download for its dataset finds every object it asks for. */
  lemma CommittedDownloadsProceed(f: Format, worlds: seq<World>, n: nat, r: Restorer)
    requires Run(f, worlds) && n < |worlds| && r.at < 6
    requires RestorePrefix(r.symbol, r.fingerprint).Some?
    requires Key(RestorePrefix(r.symbol, r.fingerprint).value, ManifestFile) in worlds[n].objects
    ensures var manifest := worlds[n].objects[Key(RestorePrefix(r.symbol, r.fingerprint).value, ManifestFile)];
      Download(f, worlds[n].objects, r).at == r.at + 1 <==> r.at > 0 || NamesSymbol(f, manifest, r.symbol)
  {
    RunKeeps(f, worlds, n);
    hide Run, Slug;
    var prefix := RestorePrefix(r.symbol, r.fingerprint).value;
    var key := Key(prefix, DownloadPart(r.at));
    assert Key(prefix, ManifestFile) in worlds[n].objects ==> key in worlds[n].objects;
    assert Conforms(f, Key(prefix, ManifestFile), worlds[n].objects[Key(prefix, ManifestFile)]);
  }

  /** One step: a manifest changes only once five parts count as secured, and each counts after its readback. */
  lemma OnlyCompletePublishersCommit(f: Format, before: Objects, p: Publisher, after: Objects, q: Publisher)
    requires PublisherStep(f, before, p, after, q)
    ensures p.phase == Failed ==> q == p && after == before
    ensures forall key: Key ::
      key.part == ManifestFile && key in after && !(key in before && before[key] == after[key]) ==>
      p.phase == Putting && p.secured == 5
    ensures q.secured > p.secured ==>
      p.phase == Reading && p.secured < 6 && PlanPart(p.secured) in p.files && CurrentKey(p) in before
      && f.fileSha(before[CurrentKey(p)]) == ExpectedSha(f, p)
  {
  }

  /** In this step publisher i puts this part. */
  ghost predicate PutsPart(w: World, v: World, i: nat, part: Part)
  {
    && i < |w.publishers| == |v.publishers|
    && var p := w.publishers[i];
       p.phase == Putting && p.secured < 6 && PlanPart(p.secured) == part && part in p.files
       && v.objects == w.objects[Key(p.prefix, part) := p.files[part]] && v.publishers[i] == p.(phase := Reading)
  }

  /** In this step publisher i reads this part back and finds the expected hash. */
  ghost predicate SecuresPart(f: Format, w: World, v: World, i: nat, part: Part)
  {
    && i < |w.publishers| == |v.publishers|
    && var p := w.publishers[i];
       p.phase == Reading && p.secured < 6 && PlanPart(p.secured) == part && part in p.files
       && Key(p.prefix, part) in w.objects && f.fileSha(w.objects[Key(p.prefix, part)]) == f.fileSha(p.files[part])
       && v.publishers[i] == Secured(p)
  }

  lemma OneMoves(f: Format, w: World, v: World, i: nat)
    requires Next(f, w, v) && i < |w.publishers|
    ensures |v.publishers| == |w.publishers|
    ensures v.publishers[i] == w.publishers[i]
            || PublisherStep(f, w.objects, w.publishers[i], v.objects, v.publishers[i])
  {
    hide PublisherStep, RestorerStep;
  }

  lemma {:induction false} SameCrew(f: Format, worlds: seq<World>, n: nat)
    requires Run(f, worlds) && n < |worlds|
    ensures |worlds[n].publishers| == |worlds[0].publishers|
  {
    hide Init, PublisherStep, RestorerStep;
    if n > 0 { SameCrew(f, worlds, n - 1); }
  }

  lemma StartsUnsecured(f: Format, worlds: seq<World>, i: nat)
    requires Run(f, worlds) && i < |worlds[0].publishers|
    ensures worlds[0].publishers[i].secured == 0
  {
    assert worlds[0].publishers[i] in worlds[0].publishers;
  }

  /** What a publisher counts as secured it has read back with the expected hash at some earlier step. */
  lemma {:induction false} SecuredEarlier(f: Format, worlds: seq<World>, n: nat, i: nat, j: nat)
    requires Run(f, worlds) && n < |worlds| && i < |worlds[n].publishers|
    requires j < 6 && j < worlds[n].publishers[i].secured
    ensures exists m :: 0 < m <= n && SecuresPart(f, worlds[m - 1], worlds[m], i, PlanPart(j))
  {
    hide Run, Next, SecuresPart, PlanPart;
    SameCrew(f, worlds, n);
    if n == 0 {
      StartsUnsecured(f, worlds, i);
    } else {
      SameCrew(f, worlds, n - 1);
      StepOf(f, worlds, n);
      if j < worlds[n - 1].publishers[i].secured {
        SecuredEarlier(f, worlds, n - 1, i, j);
      } else {
        SecuredNow(f, worlds[n - 1], worlds[n], i, j);
      }
    }
  }

  lemma StepOf(f: Format, worlds: seq<World>, n: nat)
    requires Run(f, worlds) && 0 < n < |worlds|
    ensures Next(f, worlds[n - 1], worlds[n])
  {
    hide Init, Next;
  }

  lemma SecuredNow(f: Format, w: World, v: World, i: nat, j: nat)
    requires Next(f, w, v) && i < |w.publishers| && |v.publishers| == |w.publishers| && j < 6
    requires w.publishers[i].secured <= j < v.publishers[i].secured
    ensures SecuresPart(f, w, v, i, PlanPart(j))
  {
    OneMoves(f, w, v, i);
    hide Next;
  }

  /** The place of a part in the commit protocol: the data, then the checksums, then the manifest. */
  function Rank(part: Part): nat
  {
    match part
    case Partition(F15m) => 0
    case Partition(F1h) => 1
    case Partition(F4h) => 2
    case Partition(F1d) => 3
    case ChecksumsFile => 4
    case ManifestFile => 5
  }

  lemma PlaceIsRank(j: nat)
    requires j < 6
    ensures Rank(PlanPart(j)) == j
    ensures forall part :: Rank(part) == j ==> part == PlanPart(j)
  {
    assert FRAMES[0] == F15m && FRAMES[1] == F1h && FRAMES[2] == F4h && FRAMES[3] == F1d;
  }

  /** In every run, whoever puts a part has read back every part of a lower rank with the expected hash before. */
  lemma PartsInOrder(f: Format, worlds: seq<World>, n: nat, i: nat, part: Part, earlier: Part)
    requires Run(f, worlds) && 0 < n < |worlds| && PutsPart(worlds[n - 1], worlds[n], i, part)
    requires Rank(earlier) < Rank(part)
    ensures exists m :: 0 < m < n && SecuresPart(f, worlds[m - 1], worlds[m], i, earlier)
  {
    hide Run, Rank, PlanPart;
    PlaceIsRank(worlds[n - 1].publishers[i].secured);
    PlaceIsRank(Rank(earlier));
    SecuredEarlier(f, worlds, n - 1, i, Rank(earlier));
  }

  /** The manifest is the last: the five other parts have been read back with the expected hash before. */
  lemma ManifestAfterAllParts(f: Format, worlds: seq<World>, n: nat, i: nat, part: Part)
    requires Run(f, worlds) && 0 < n < |worlds| && PutsPart(worlds[n - 1], worlds[n], i, ManifestFile)
    requires part != ManifestFile
    ensures exists m :: 0 < m < n && SecuresPart(f, worlds[m - 1], worlds[m], i, part)
  {
    hide Run;
    PartsInOrder(f, worlds, n, i, ManifestFile, part);
  }

  /** A manifest object appears or changes only by such a put. */
  lemma ManifestChangesArePuts(f: Format, w: World, v: World, prefix: Prefix)
    requires Next(f, w, v) && Key(prefix, ManifestFile) in v.objects
    requires !(Key(prefix, ManifestFile) in w.objects
               && w.objects[Key(prefix, ManifestFile)] == v.objects[Key(prefix, ManifestFile)])
    ensures exists i: nat :: i < |w.publishers| && PutsPart(w, v, i, ManifestFile) && w.publishers[i].prefix == prefix
  {
    hide RestorerStep;
    var i, q :| 0 <= i < |w.publishers| && PublisherStep(f, w.objects, w.publishers[i], v.objects, q)
                && v == w.(objects := v.objects, publishers := w.publishers[i := q]);
    assert PutsPart(w, v, i, ManifestFile);
  }

  /** Once a publisher has failed it stays as it is, and no later step of it changes an object. */
  lemma {:induction false} FailedForGood(f: Format, worlds: seq<World>, m: nat, n: nat, i: nat)
    requires Run(f, worlds) && m <= n < |worlds| && i < |worlds[m].publishers|
    requires worlds[m].publishers[i].phase == Failed
    ensures i < |worlds[n].publishers| && worlds[n].publishers[i] == worlds[m].publishers[i]
    ensures forall after, q ::
      PublisherStep(f, worlds[n].objects, worlds[n].publishers[i], after, q) ==> after == worlds[n].objects
    decreases n - m
  {
    if m < n {
      FailedForGood(f, worlds, m, n - 1, i);
      OneMoves(f, worlds[n - 1], worlds[n], i);
    }
  }

  // ------------------------------------------------------- same prefix, other bytes

  /**
   * Exactly which other manifest bytes make a verified bundle of the same prefix: those that read as a
   * valid manifest of the same identity, whatever else they say.
   */
  lemma ManifestRewrittenExactly(f: Format, files: Files, other: Bytes)
    requires CollisionFree(f) && VerifyBundle(f, files).Some?
    ensures var m, again := VerifyBundle(f, files).value, VerifyBundle(f, files[ManifestFile := other]);
      again.Some? && again.value.payload.objectPrefix == m.payload.objectPrefix
      <==> var r := f.readManifest(other);
           r.Some? && ValidManifest(f, r.value) && r.value.payload.identity == m.payload.identity
  {
    hide ChecksumsMatch;
    VerifiedHolds(f, files);
    var m, rewritten := VerifyBundle(f, files).value, files[ManifestFile := other];
    if VerifyBundle(f, rewritten).Some? {
      VerifiedHolds(f, rewritten);
      assert f.identitySha(m.payload.identity) == m.payload.datasetFingerprint;
    }
  }

  /**
   * So one prefix does not determine the bytes of its manifest: two byte strings that read alike, or
   * two manifests that differ in an unnamed key only, are both verified under it.
   */
  lemma TwoBundlesOnePrefix(f: Format, files: Files, other: Bytes)
    requires CollisionFree(f) && VerifyBundle(f, files).Some? && other != files[ManifestFile]
    ensures f.readManifest(other) == f.readManifest(files[ManifestFile]) ==>
      VerifyBundle(f, files[ManifestFile := other]) == VerifyBundle(f, files)
    ensures var p := VerifyBundle(f, files).value.payload;
      forall extra :: f.readManifest(other) == Some(Signed(f, p.(extra := extra))) ==>
        var again := VerifyBundle(f, files[ManifestFile := other]);
        again.Some? && again.value.payload == p.(extra := extra) && again.value.payload.objectPrefix == p.objectPrefix
  {
    hide ChecksumsMatch, VerifyBundle;
    VerifiedHolds(f, files);
    var p, rewritten := VerifyBundle(f, files).value.payload, files[ManifestFile := other];
    ManifestRewrittenExactly(f, files, other);
    if VerifyBundle(f, rewritten).Some? { VerifiedHolds(f, rewritten); }
    forall extra | f.readManifest(other) == Some(Signed(f, p.(extra := extra)))
      ensures ValidManifest(f, Signed(f, p.(extra := extra)))
    {
    }
  }

  /** A payload with its own fingerprint. */
  function Signed(f: Format, p: Payload): Manifest { Manifest(p, f.payloadSha(p)) }

  /** A reader for which the other bytes are one more way of writing the same manifest. */
  function Lenient(f: Format, written: Bytes, other: Bytes): Format
  {
    f.(readManifest := b => if b == other then f.readManifest(written) else f.readManifest(b))
  }

  /**
   * Such readings are never ruled out: for every verified bundle and every other byte string there is
   * a collision-free format with which that string is a second manifest of the same prefix.
   */
  lemma AnyBytesCanBeManifest(f: Format, files: Files, other: Bytes)
    requires CollisionFree(f) && VerifyBundle(f, files).Some? && other != files[ManifestFile]
    ensures var g := Lenient(f, files[ManifestFile], other);
      var rewritten := files[ManifestFile := other];
      && CollisionFree(g) && VerifyBundle(g, files) == VerifyBundle(f, files)
      && VerifyBundle(g, rewritten) == VerifyBundle(g, files)
      && rewritten[ManifestFile] != files[ManifestFile]
  {
    hide ChecksumsMatch, CollisionFree, ValidManifest;
    var g := Lenient(f, files[ManifestFile], other);
    SameHashes(f, g);
    forall m ensures ValidManifest(g, m) == ValidManifest(f, m) { SameRules(f, g, m); }
    forall identity, bytes ensures ChecksumsMatch(g, identity, bytes) == ChecksumsMatch(f, identity, bytes) {
      SameChecksums(f, g, identity, bytes);
    }
  }

  lemma SameHashes(f: Format, g: Format)
    requires CollisionFree(f) && g.fileSha == f.fileSha && g.identitySha == f.identitySha
    ensures CollisionFree(g)
  {
  }

  lemma SameRules(f: Format, g: Format, m: Manifest)
    requires g.payloadSha == f.payloadSha && g.identitySha == f.identitySha
    ensures ValidManifest(g, m) == ValidManifest(f, m)
  {
  }

  lemma SameChecksums(f: Format, g: Format, identity: Identity, bytes: Bytes)
    requires g.readChecksums == f.readChecksums
    ensures ChecksumsMatch(g, identity, bytes) == ChecksumsMatch(f, identity, bytes)
  {
  }

  /** What one prefix does determine: the identity and the bytes of every partition. */
  lemma OnePrefixOnePartitions(f: Format, a: Files, b: Files)
    requires CollisionFree(f) && VerifyBundle(f, a).Some? && VerifyBundle(f, b).Some?
    requires VerifyBundle(f, a).value.payload.objectPrefix == VerifyBundle(f, b).value.payload.objectPrefix
    ensures VerifyBundle(f, a).value.payload.identity == VerifyBundle(f, b).value.payload.identity
    ensures forall frame: Frame ::
      Partition(frame) in a && Partition(frame) in b && a[Partition(frame)] == b[Partition(frame)]
  {
    hide VerifyBundle, ChecksumsMatch;
    VerifiedHolds(f, a);
    VerifiedHolds(f, b);
  }

  /**
   * A publisher that finds an object in a safe store is refused exactly when the stored bytes are not
   * those of its own file, which for a partition is never.
   */
  lemma RefusedExactly(f: Format, objects: Objects, p: Publisher)
    requires CollisionFree(f) && StoreOk(f, objects) && Verified(f, p) && p.secured < 6
    requires PlanPart(p.secured) in p.files && CurrentKey(p) in objects
    ensures Readback(f, objects, p).phase == Failed <==> objects[CurrentKey(p)] != p.files[PlanPart(p.secured)]
    ensures PlanPart(p.secured).Partition? ==> objects[CurrentKey(p)] == p.files[PlanPart(p.secured)]
  {
    hide VerifyBundle, ChecksumsMatch;
    var key := CurrentKey(p);
    assert Conforms(f, key, objects[key]);
    VerifiedHolds(f, p.files);
    var identity := VerifyBundle(f, p.files).value.payload.identity;
    assert f.identitySha(identity) == key.prefix.fingerprint;
    SameIdentity(f, key, objects[key], identity);
    if key.part.Partition? {
      assert PartitionMatches(f, identity, key.part.frame, p.files[key.part]);
    }
  }

  /** Whatever the store served, two accepted bundles with one fingerprint are the same data. */
  lemma AcceptedBundlesAgree(f: Format, symbol: string, fingerprint: Digest, a: Files, b: Files)
    requires CollisionFree(f)
    requires Accepts(f, symbol, fingerprint, a).Some? && Accepts(f, symbol, fingerprint, b).Some?
    ensures Accepts(f, symbol, fingerprint, a).value.payload.identity
         == Accepts(f, symbol, fingerprint, b).value.payload.identity
    ensures forall frame: Frame ::
      Partition(frame) in a && Partition(frame) in b && a[Partition(frame)] == b[Partition(frame)]
  {
    hide VerifyBundle, ChecksumsMatch;
    VerifiedHolds(f, a);
    VerifiedHolds(f, b);
  }

  /** What a restorer ends with, in any run, is a bundle that complies with every rule and is the one asked for. */
  lemma RestoredIsAskedFor(f: Format, worlds: seq<World>, n: nat, i: nat)
    requires Run(f, worlds) && n < |worlds| && i < |worlds[n].restorers|
    requires worlds[n].restorers[i].phase.Restored?
    ensures var (r, m) := (worlds[n].restorers[i], worlds[n].restorers[i].phase.manifest);
      && r.cache.Some? && ManifestFile in r.cache.value && f.readManifest(r.cache.value[ManifestFile]) == Some(m)
      && Complies(f, r.cache.value, m)
      && m.payload.identity.symbol == r.symbol && m.payload.datasetFingerprint == r.fingerprint
  {
    RunKeeps(f, worlds, n);
    var r := worlds[n].restorers[i];
    assert RestorerOk(f, r);
    hide Run, Inv, VerifyBundle, Complies;
    VerifiesExactly(f, r.cache.value, r.phase.manifest);
  }

  /** Every two successful restores of a dataset, in any run, return the same identity and partitions. */
  lemma RestoresAgree(f: Format, worlds: seq<World>, m: nat, n: nat, i: nat, j: nat)
    requires CollisionFree(f) && Run(f, worlds) && m < |worlds| && n < |worlds|
    requires i < |worlds[m].restorers| && j < |worlds[n].restorers|
    requires worlds[m].restorers[i].phase.Restored? && worlds[n].restorers[j].phase.Restored?
    requires worlds[m].restorers[i].symbol == worlds[n].restorers[j].symbol
    requires worlds[m].restorers[i].fingerprint == worlds[n].restorers[j].fingerprint
    ensures worlds[m].restorers[i].phase.manifest.payload.identity
         == worlds[n].restorers[j].phase.manifest.payload.identity
    ensures var (a, b) := (worlds[m].restorers[i].cache, worlds[n].restorers[j].cache);
      && a.Some? && b.Some?
      && forall frame: Frame ::
           Partition(frame) in a.value && Partition(frame) in b.value
           && a.value[Partition(frame)] == b.value[Partition(frame)]
  {
    RunKeeps(f, worlds, m);
    RunKeeps(f, worlds, n);
    var a, b := worlds[m].restorers[i], worlds[n].restorers[j];
    assert RestorerOk(f, a) && RestorerOk(f, b);
    hide Run, CollisionFree, Accepts, Inv;
    AcceptedBundlesAgree(f, a.symbol, a.fingerprint, a.cache.value, b.cache.value);
  }

  /** Replacing a partition of a verified bundle is always noticed: only the same bytes verify again. */
  lemma CorruptionIsNoticed(f: Format, files: Files, frame: Frame, bytes: Bytes)
    requires CollisionFree(f) && VerifyBundle(f, files).Some?
    ensures VerifyBundle(f, files[Partition(frame) := bytes]).Some? <==> files[Partition(frame)] == bytes
  {
    hide ChecksumsMatch, VerifyBundle;
    VerifiedHolds(f, files);
    var other := files[Partition(frame) := bytes];
    if files[Partition(frame)] == bytes {
      assert other == files;
    }
    if VerifyBundle(f, other).Some? {
      VerifiedHolds(f, other);
    }
  }
}
