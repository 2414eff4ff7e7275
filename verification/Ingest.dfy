// Ingest of package files: metadata rows and stored bytes written one step after another.
//
// An ingest may stop before any of its steps, because the step fails or the process ends: it is
// given `budget`, the number of state-changing steps it completes. Digests and lower-casing come from the
// environment. Calls run one at a time.
module Ingest {
  import opened Wrappers
  import opened Models

  type Bytes = seq<bv8>

  datatype Sums = Sums(md5: string, sha1: string, sha256: string, sha512: string)

  datatype Env = Env(sums: Bytes -> Sums, lower: string -> string) {
    function Digest(content: Bytes): string { sums(content).sha256 }
  }

  datatype Info = Info(
    tenant: int, typ: string, name: string, lookup: string, version: string, versionProps: seq<(string, string)>,
    metadata: string, filename: string, isLead: bool, via: CreatedVia, now: int)

  // Whether an existing version is refused or gets the file added to it.
  datatype Mode = MustBeNew | MayExist

  // The database and the objects on disk by path.
  datatype World = World(db: Db, disk: map<string, Bytes>)

  datatype Done = Done(package: nat, version: nat, file: nat)

  // ---- rows ----

  function LookupName(env: Env, info: Info): string {
    if info.lookup != "" then info.lookup else env.lower(info.name)
  }

  function PackageRow(env: Env, info: Info): Package {
    var via := if info.via == Other("") then Uploaded else info.via;
    Package(info.tenant, info.typ, info.name, LookupName(env, info), info.now, via)
  }

  function VersionRow(env: Env, info: Info, package: nat): Version {
    Version(package, info.version, env.lower(info.version), info.metadata, info.now)
  }

  function BlobRow(env: Env, info: Info, content: Bytes): Blob {
    var s := env.sums(content);
    Blob(|content|, s.md5, s.sha1, s.sha256, s.sha512, info.now)
  }

  function FileRow(env: Env, info: Info, version: nat, blob: nat): File {
    File(version, blob, info.filename, env.lower(info.filename), info.isLead, info.now)
  }

  // ---- the steps ----

  ghost function EnsureVersion(db: Db, env: Env, info: Info, mode: Mode, package: nat): (Db, Reply) {
    var row := VersionRow(env, info, package);
    var found := Find(db.versions, VersionKey, VersionKey(row));
    if mode == MayExist && found.Some? then (db, Ok(found.value)) else AddVersion(db, row)
  }

  function PutAll(db: Db, version: nat, props: seq<(string, string)>): Db {
    if props == [] then db
    else
      var n := |props| - 1;
      PutProperty(PutAll(db, version, props[..n]), Ref(OfVersion, version), props[n].0, props[n].1)
  }

  // Save replaces the object at the digest's path by a rename.
  function Save(w: World, env: Env, content: Bytes): World {
    w.(disk := w.disk[env.Digest(content) := content])
  }

  // GetOrCreateBlob for the saved bytes.
  ghost function RecordBlob(w: World, env: Env, info: Info, content: Bytes): (World, Reply) {
    var (db, b) := AddBlob(w.db, BlobRow(env, info, content));
    (w.(db := db), b)
  }

  ghost function RecordFile(w: World, env: Env, info: Info, d: Done, blob: nat): (World, Result<Done, Error>) {
    var (db, f) := AddFile(w.db, FileRow(env, info, d.version, blob));
    (w.(db := db), match f case Ok(id) => Ok(d.(file := id)) case Err(e) => Err(e))
  }

  // The steps after the version's properties: the bytes, the blob row, the file row.
  ghost function Record(w: World, env: Env, info: Info, content: Bytes, d: Done, budget: nat)
    : (World, Result<Done, Error>)
  {
    if budget == 0 then (w, Err(Stopped))
    else
      var saved := Save(w, env, content);
      if budget == 1 then (saved, Err(Stopped))
      else
        var (recorded, b) := RecordBlob(saved, env, info, content);
        if b.Err? then (recorded, Err(b.error))
        else if budget == 2 then (recorded, Err(Stopped))
        else RecordFile(recorded, env, info, d, b.value)
  }

  ghost function Attach(w: World, env: Env, info: Info, content: Bytes, d: Done, budget: nat)
    : (World, Result<Done, Error>)
  {
    var n := |info.versionProps|;
    if budget < n then (w.(db := PutAll(w.db, d.version, info.versionProps[..budget])), Err(Stopped))
    else Record(w.(db := PutAll(w.db, d.version, info.versionProps)), env, info, content, d, budget - n)
  }

  // The package and version rows the file goes under.
  ghost function Prepare(db: Db, env: Env, info: Info, mode: Mode, budget: nat): (Db, Result<Done, Error>) {
    if info.tenant == 0 then (db, Err(TenantRequired))
    else if budget == 0 then (db, Err(Stopped))
    else
      var (db1, p) := AddPackage(db, PackageRow(env, info));
      if p.Err? then (db1, Err(p.error))
      else if budget == 1 then (db1, Err(Stopped))
      else
        var (db2, v) := EnsureVersion(db1, env, info, mode, p.value);
        (db2, match v case Ok(id) => Ok(Done(p.value, id, 0)) case Err(e) => Err(e))
  }

  ghost function Add(w: World, env: Env, info: Info, mode: Mode, content: Bytes, budget: nat)
    : (World, Result<Done, Error>)
  {
    var (db, d) := Prepare(w.db, env, info, mode, budget);
    match d
    case Err(e) => (w.(db := db), Err(e))
    case Ok(done) => Attach(w.(db := db), env, info, content, done, if budget >= 2 then budget - 2 else 0)
  }

  // ---- what is kept ----

  ghost predicate BytesOk(w: World, env: Env, id: nat)
    requires id in w.db.blobs
  {
    var b := w.db.blobs[id];
    b.sha256 in w.disk && env.Digest(w.disk[b.sha256]) == b.sha256 && |w.disk[b.sha256]| == b.size
  }

  // Every file row refers to a blob row, and every blob row's digest names stored bytes with that
  // digest and size.
  ghost predicate Intact(w: World, env: Env) {
    && w.db.Valid()
    && (forall f :: f in w.db.files ==> w.db.files[f].blob in w.db.blobs)
    && (forall id :: id in w.db.blobs ==> BytesOk(w, env, id))
  }

  // The digest of `content` is recorded for bytes of another length.
  ghost predicate Clashes(w: World, env: Env, content: Bytes) {
    exists id :: id in w.db.blobs && w.db.blobs[id].sha256 == env.Digest(content) && w.db.blobs[id].size != |content|
  }

  lemma {:induction false} PutAllKeeps(db: Db, version: nat, props: seq<(string, string)>)
    requires db.Valid()
    ensures var r := PutAll(db, version, props);
      r.Valid() && r == db.(props := r.props, nextProp := r.nextProp)
  {
    if props != [] {
      var n := |props| - 1;
      PutAllKeeps(db, version, props[..n]);
      PutPropertyKeepsValid(PutAll(db, version, props[..n]), Ref(OfVersion, version), props[n].0, props[n].1);
    }
  }

  lemma SaveKeepsIntactIff(w: World, env: Env, content: Bytes)
    requires Intact(w, env)
    ensures Intact(Save(w, env, content), env) <==> !Clashes(w, env, content)
  {
    var r := Save(w, env, content);
    if Clashes(w, env, content) {
      var id :| id in w.db.blobs && w.db.blobs[id].sha256 == env.Digest(content) && w.db.blobs[id].size != |content|;
      assert !BytesOk(r, env, id);
    } else {
      forall id | id in r.db.blobs
        ensures BytesOk(r, env, id)
      {
        assert BytesOk(w, env, id);
      }
    }
  }

  lemma RecordBlobKeepsIntact(w: World, env: Env, info: Info, content: Bytes)
    requires Intact(w, env) && env.Digest(content) in w.disk && w.disk[env.Digest(content)] == content
    ensures Intact(RecordBlob(w, env, info, content).0, env)
  {
    var r := RecordBlob(w, env, info, content).0;
    AddBlobKeepsValid(w.db, BlobRow(env, info, content));
    forall id | id in r.db.blobs
      ensures BytesOk(r, env, id)
    {
      if id in w.db.blobs {
        assert BytesOk(w, env, id);
      }
    }
  }

  // Changes of other tables keep the blobs intact.
  lemma SameBlobsIntact(w: World, env: Env, db: Db)
    requires Intact(w, env) && db.Valid() && db.blobs == w.db.blobs
    ensures Intact(w.(db := db), env)
  {
    var r := w.(db := db);
    forall id | id in r.db.blobs
      ensures BytesOk(r, env, id)
    {
      assert BytesOk(w, env, id);
    }
  }

  lemma RecordFileKeepsIntact(w: World, env: Env, info: Info, d: Done, blob: nat)
    requires Intact(w, env)
    ensures Intact(RecordFile(w, env, info, d, blob).0, env)
  {
    var row := FileRow(env, info, d.version, blob);
    AddFileKeepsValid(w.db, row);
    SameBlobsIntact(w, env, AddFile(w.db, row).0);
  }

  lemma RecordKeepsIntact(w: World, env: Env, info: Info, content: Bytes, d: Done, budget: nat)
    requires Intact(w, env) && !Clashes(w, env, content)
    ensures Intact(Record(w, env, info, content, d, budget).0, env)
  {
    SaveKeepsIntactIff(w, env, content);
    var saved := Save(w, env, content);
    RecordBlobKeepsIntact(saved, env, info, content);
    var (recorded, b) := RecordBlob(saved, env, info, content);
    if b.Ok? {
      RecordFileKeepsIntact(recorded, env, info, d, b.value);
    }
  }

  lemma AttachKeepsIntact(w: World, env: Env, info: Info, content: Bytes, d: Done, budget: nat)
    requires Intact(w, env) && !Clashes(w, env, content)
    ensures Intact(Attach(w, env, info, content, d, budget).0, env)
  {
    var n := |info.versionProps|;
    var puts := if budget < n then info.versionProps[..budget] else info.versionProps;
    var db := PutAll(w.db, d.version, puts);
    PutAllKeeps(w.db, d.version, puts);
    SameBlobsIntact(w, env, db);
    if budget >= n {
      RecordKeepsIntact(w.(db := db), env, info, content, d, budget - n);
    }
  }

  lemma EnsureVersionKeeps(db: Db, env: Env, info: Info, mode: Mode, package: nat)
    requires db.Valid()
    ensures var r := EnsureVersion(db, env, info, mode, package).0;
      r.Valid() && r == db.(versions := r.versions, nextVersion := r.nextVersion)
  {
    AddVersionKeepsValid(db, VersionRow(env, info, package));
  }

  lemma EnsurePackageKeeps(db: Db, env: Env, info: Info)
    requires db.Valid()
    ensures var r := AddPackage(db, PackageRow(env, info)).0;
      r.Valid() && r == db.(packages := r.packages, nextPackage := r.nextPackage)
  {
    AddPackageKeepsValid(db, PackageRow(env, info));
  }

  // ---- what an ingest adds ----

  ghost predicate Kept<R>(table: map<nat, R>, later: map<nat, R>) {
    forall i :: i in table ==> i in later && later[i] == table[i]
  }

  // No row of these tables is changed or removed.
  ghost predicate Grows(db: Db, later: Db) {
    && Kept(db.packages, later.packages) && Kept(db.versions, later.versions)
    && Kept(db.blobs, later.blobs) && Kept(db.files, later.files)
    && later.tenants == db.tenants
  }

  // OpenFile: the bytes behind a file row.
  ghost function Read(w: World, file: nat): Option<Bytes> {
    if file !in w.db.files || w.db.files[file].blob !in w.db.blobs then None
    else
      var path := w.db.blobs[w.db.files[file].blob].sha256;
      if path in w.disk then Some(w.disk[path]) else None
  }

  // A successful ingest adds one new file row; any other adds none.
  ghost predicate Landed(w: World, later: World, r: Result<Done, Error>) {
    match r
    case Err(_) => later.db.files == w.db.files && later.db.nextFile == w.db.nextFile
    case Ok(d) =>
      && d.file == w.db.nextFile && d.file in later.db.files
      && later.db.files == w.db.files[d.file := later.db.files[d.file]]
      && later.db.nextFile == d.file + 1
  }

  // The blob row of the content: an existing one stays.
  ghost predicate BlobMadeIs(db: Db, later: Db, env: Env, info: Info, content: Bytes, blob: nat) {
    var sums := env.sums(content);
    && blob in later.blobs && later.blobs[blob].sha256 == sums.sha256
    && (blob !in db.blobs ==>
          later.blobs[blob] == Blob(|content|, sums.md5, sums.sha1, sums.sha256, sums.sha512, info.now))
  }

  lemma RecordBlobLands(w: World, env: Env, info: Info, content: Bytes)
    requires w.db.Valid()
    ensures var (later, b) := RecordBlob(w, env, info, content);
      && later == w.(db := w.db.(blobs := later.db.blobs, nextBlob := later.db.nextBlob))
      && later.db.Valid() && Kept(w.db.blobs, later.db.blobs)
      && b.Ok? && BlobMadeIs(w.db, later.db, env, info, content, b.value)
  {
    AddBlobKeepsValid(w.db, BlobRow(env, info, content));
  }

  // The new file row names the bytes.
  ghost predicate FileLinked(w: World, env: Env, info: Info, content: Bytes, d: Done) {
    && d.file in w.db.files
    && w.db.files[d.file] == FileRow(env, info, d.version, w.db.files[d.file].blob)
    && Read(w, d.file) == Some(content)
  }

  lemma RecordFileLands(w: World, env: Env, info: Info, content: Bytes, d: Done, blob: nat)
    requires w.db.Valid()
    requires blob in w.db.blobs && w.db.blobs[blob].sha256 in w.disk && w.disk[w.db.blobs[blob].sha256] == content
    ensures var (later, r) := RecordFile(w, env, info, d, blob);
      && later == w.(db := w.db.(files := later.db.files, nextFile := later.db.nextFile))
      && Landed(w, later, r) && Kept(w.db.files, later.db.files)
      && (r.Err? || (r.value == d.(file := w.db.nextFile) && FileLinked(later, env, info, content, r.value)
                     && later.db.files[r.value.file].blob == blob))
  {
  }

  // Its blob row is the one made or found for the bytes.
  ghost predicate FileMade(db: Db, later: World, env: Env, info: Info, content: Bytes, d: Done) {
    && FileLinked(later, env, info, content, d)
    && BlobMadeIs(db, later.db, env, info, content, later.db.files[d.file].blob)
  }

  lemma RecordGrows(w: World, env: Env, info: Info, content: Bytes, d: Done, budget: nat)
    requires w.db.Valid()
    ensures Grows(w.db, Record(w, env, info, content, d, budget).0.db)
  {
    var saved := Save(w, env, content);
    RecordBlobLands(saved, env, info, content);
    var (recorded, b) := RecordBlob(saved, env, info, content);
    assert Grows(w.db, recorded.db) && recorded.db.files == w.db.files;
    RecordFileLands(recorded, env, info, content, d, b.value);
    var (later, _) := RecordFile(recorded, env, info, d, b.value);
    assert Grows(w.db, later.db);
    assert Record(w, env, info, content, d, budget).0 in {w, saved, recorded, later};
  }

  lemma RecordLands(w: World, env: Env, info: Info, content: Bytes, d: Done, budget: nat)
    requires w.db.Valid()
    ensures var (later, r) := Record(w, env, info, content, d, budget);
      && Landed(w, later, r)
      && (r.Err? || (r.value == d.(file := w.db.nextFile) && FileMade(w.db, later, env, info, content, r.value)))
  {
    var saved := Save(w, env, content);
    RecordBlobLands(saved, env, info, content);
    var (recorded, b) := RecordBlob(saved, env, info, content);
    RecordFileLands(recorded, env, info, content, d, b.value);
    var (later, r) := RecordFile(recorded, env, info, d, b.value);
    assert Landed(w, later, r);
  }

  // The rows that lead from the ingested package, version and file to the bytes.
  ghost predicate Linked(w: World, env: Env, info: Info, content: Bytes, d: Done) {
    Prepared(w.db, env, info, d) && FileLinked(w, env, info, content, d)
  }

  lemma PutAllGrows(w: World, version: nat, props: seq<(string, string)>)
    requires w.db.Valid()
    ensures var later := w.(db := PutAll(w.db, version, props));
      && later.db.Valid() && Grows(w.db, later.db)
      && later.db.files == w.db.files && later.db.nextFile == w.db.nextFile
      && later.db.blobs == w.db.blobs && later.db.versions == w.db.versions
  {
    PutAllKeeps(w.db, version, props);
  }

  lemma RecordLandsAfter(w: World, w1: World, env: Env, info: Info, content: Bytes, d: Done, budget: nat)
    requires w1.db.Valid() && Grows(w.db, w1.db) && w1.db.files == w.db.files && w1.db.nextFile == w.db.nextFile
    requires w1.db.blobs == w.db.blobs
    ensures var (later, r) := Record(w1, env, info, content, d, budget);
      && Grows(w.db, later.db) && Landed(w, later, r)
      && (r.Err? || (r.value == d.(file := w.db.nextFile) && FileMade(w.db, later, env, info, content, r.value)))
  {
    RecordGrows(w1, env, info, content, d, budget);
    RecordLands(w1, env, info, content, d, budget);
  }

  lemma AttachLands(w: World, env: Env, info: Info, content: Bytes, d: Done, budget: nat)
    requires w.db.Valid()
    ensures var (later, r) := Attach(w, env, info, content, d, budget);
      && Grows(w.db, later.db) && Landed(w, later, r)
      && (r.Err? || (r.value == d.(file := w.db.nextFile) && FileMade(w.db, later, env, info, content, r.value)))
  {
    var n := |info.versionProps|;
    if budget < n {
      PutAllGrows(w, d.version, info.versionProps[..budget]);
    } else {
      PutAllGrows(w, d.version, info.versionProps);
      var w1 := w.(db := PutAll(w.db, d.version, info.versionProps));
      RecordLandsAfter(w, w1, env, info, content, d, budget - n);
    }
  }

  lemma EnsurePackageFinds(db: Db, row: Package)
    requires IdsBelow(db.packages, db.nextPackage)
    ensures var (later, p) := AddPackage(db, row);
      && Kept(db.packages, later.packages)
      && (p.Err? || (p.value in later.packages && PackageKey(later.packages[p.value]) == PackageKey(row)))
  {
  }

  // The version row an ingest makes; an existing one stays.
  ghost predicate VersionMadeIs(db: Db, later: Db, env: Env, info: Info, d: Done) {
    && d.version in later.versions && later.versions[d.version].package == d.package
    && later.versions[d.version].lowerVersion == env.lower(info.version)
    && (d.version !in db.versions ==>
          var metadata := if info.metadata == "" then "{}" else info.metadata;
          later.versions[d.version] == Version(d.package, info.version, env.lower(info.version), metadata, info.now))
  }

  lemma EnsureVersionFinds(db: Db, env: Env, info: Info, mode: Mode, package: nat)
    requires IdsBelow(db.versions, db.nextVersion)
    ensures var (later, v) := EnsureVersion(db, env, info, mode, package);
      && Kept(db.versions, later.versions)
      && (v.Err? || VersionMadeIs(db, later, env, info, Done(package, v.value, 0)))
  {
  }

  // Only packages and versions were added.
  ghost predicate Begun(db: Db, later: Db) {
    && later.Valid() && Kept(db.packages, later.packages) && Kept(db.versions, later.versions)
    && later.tenants == db.tenants && later.blobs == db.blobs && later.files == db.files
    && later.nextFile == db.nextFile
  }

  lemma EnsurePackageBegins(db: Db, env: Env, info: Info)
    requires db.Valid()
    ensures Begun(db, AddPackage(db, PackageRow(env, info)).0)
  {
    EnsurePackageKeeps(db, env, info);
    EnsurePackageFinds(db, PackageRow(env, info));
  }

  lemma EnsureVersionBegins(db: Db, next: Db, env: Env, info: Info, mode: Mode, package: nat)
    requires Begun(db, next)
    ensures Begun(db, EnsureVersion(next, env, info, mode, package).0)
  {
    EnsureVersionKeeps(next, env, info, mode, package);
    EnsureVersionFinds(next, env, info, mode, package);
  }

  lemma PrepareBegins(db: Db, env: Env, info: Info, mode: Mode, budget: nat)
    requires db.Valid()
    ensures Begun(db, Prepare(db, env, info, mode, budget).0)
  {
    EnsurePackageBegins(db, env, info);
    var (db1, p) := AddPackage(db, PackageRow(env, info));
    if p.Ok? {
      EnsureVersionBegins(db, db1, env, info, mode, p.value);
    }
  }

  ghost predicate Prepared(db: Db, env: Env, info: Info, d: Done) {
    && d.package in db.packages && PackageKey(db.packages[d.package]) == PackageKey(PackageRow(env, info))
    && d.version in db.versions && VersionKey(db.versions[d.version]) == (d.package, env.lower(info.version))
  }

  lemma PrepareLinks(db: Db, env: Env, info: Info, mode: Mode, budget: nat)
    requires db.Valid()
    ensures var (later, d) := Prepare(db, env, info, mode, budget);
      d.Ok? ==> Prepared(later, env, info, d.value) && VersionMadeIs(db, later, env, info, d.value) && budget >= 2
  {
    EnsurePackageKeeps(db, env, info);
    EnsurePackageFinds(db, PackageRow(env, info));
    var (db1, p) := AddPackage(db, PackageRow(env, info));
    if p.Ok? {
      EnsureVersionKeeps(db1, env, info, mode, p.value);
      EnsureVersionFinds(db1, env, info, mode, p.value);
    }
  }

  // An ingest changes no existing package, version, blob or file row and adds one file row if it
  // succeeds and none if it does not.
  lemma AddLands(w: World, env: Env, info: Info, mode: Mode, content: Bytes, budget: nat)
    requires w.db.Valid()
    ensures var (later, r) := Add(w, env, info, mode, content, budget);
      Grows(w.db, later.db) && Landed(w, later, r)
  {
    PrepareBegins(w.db, env, info, mode, budget);
    var (db, d) := Prepare(w.db, env, info, mode, budget);
    if d.Ok? {
      AttachLands(w.(db := db), env, info, content, d.value, if budget >= 2 then budget - 2 else 0);
    }
  }

  ghost predicate VersionAndBlobMade(db: Db, later: Db, env: Env, info: Info, content: Bytes, d: Done) {
    && VersionMadeIs(db, later, env, info, d) && d.file in later.files
    && BlobMadeIs(db, later, env, info, content, later.files[d.file].blob)
  }
  // Following the rows of a successful ingest from its package, version and file gives the bytes.
  lemma AddLinks(w: World, env: Env, info: Info, mode: Mode, content: Bytes, budget: nat)
    requires w.db.Valid()
    ensures var (later, r) := Add(w, env, info, mode, content, budget);
      r.Ok? ==>
        Linked(later, env, info, content, r.value) && VersionAndBlobMade(w.db, later.db, env, info, content, r.value)
  {
    PrepareBegins(w.db, env, info, mode, budget);
    PrepareLinks(w.db, env, info, mode, budget);
    var (db, d) := Prepare(w.db, env, info, mode, budget);
    if d.Ok? {
      AttachLands(w.(db := db), env, info, content, d.value, if budget >= 2 then budget - 2 else 0);
    }
  }

  // An ingest that stops anywhere, or fails, leaves nothing dangling.
  lemma AddKeepsIntact(w: World, env: Env, info: Info, mode: Mode, content: Bytes, budget: nat)
    requires Intact(w, env) && !Clashes(w, env, content)
    ensures Intact(Add(w, env, info, mode, content, budget).0, env)
  {
    PrepareBegins(w.db, env, info, mode, budget);
    var (db, d) := Prepare(w.db, env, info, mode, budget);
    SameBlobsIntact(w, env, db);
    if d.Ok? {
      AttachKeepsIntact(w.(db := db), env, info, content, d.value, if budget >= 2 then budget - 2 else 0);
    }
  }

  lemma RecordKeepsValid(w: World, env: Env, info: Info, content: Bytes, d: Done, budget: nat)
    requires w.db.Valid()
    ensures Record(w, env, info, content, d, budget).0.db.Valid()
    ensures Record(w, env, info, content, d, budget).0.db.packages == w.db.packages
    ensures Record(w, env, info, content, d, budget).0.db.nextPackage == w.db.nextPackage
  {
    var saved := Save(w, env, content);
    RecordBlobLands(saved, env, info, content);
    var (recorded, b) := RecordBlob(saved, env, info, content);
    AddFileKeepsValid(recorded.db, FileRow(env, info, d.version, b.value));
  }

  // Whether it succeeds, fails or stops, an ingest meets the schema and adds at most one package row.
  lemma AddKeepsValid(w: World, env: Env, info: Info, mode: Mode, content: Bytes, budget: nat)
    requires w.db.Valid()
    ensures var (later, r) := Add(w, env, info, mode, content, budget);
      && later.db.Valid()
      && later.db.packages == Prepare(w.db, env, info, mode, budget).0.packages
      && later.db.nextPackage == Prepare(w.db, env, info, mode, budget).0.nextPackage
  {
    PrepareBegins(w.db, env, info, mode, budget);
    var (db, d) := Prepare(w.db, env, info, mode, budget);
    if d.Ok? {
      var puts := if budget - 2 < |info.versionProps| then info.versionProps[..budget - 2] else info.versionProps;
      PutAllKeeps(db, d.value.version, puts);
      if budget - 2 >= |info.versionProps| {
        var w1 := w.(db := PutAll(db, d.value.version, puts));
        RecordKeepsValid(w1, env, info, content, d.value, budget - 2 - |info.versionProps|);
      }
    }
  }

  ghost predicate PackageCreated(db: Db, later: Db, env: Env, info: Info) {
    later.packages == db.packages[db.nextPackage := Labelled(env, info)] && later.nextPackage == db.nextPackage + 1
  }

  lemma EnsurePackageIs(db: Db, env: Env, info: Info)
    ensures var (later, p) := AddPackage(db, PackageRow(env, info));
      match Find(db.packages, PackageKey, PackageKey(PackageRow(env, info)))
      case Some(id) => later == db && p == Ok(id)
      case None =>
        || (later == db && p.Err?)
        || (PackageCreated(db, later, env, info) && p == Ok(db.nextPackage))
  {
  }

  // The package rows after an ingest: as before, or with the one it creates.
  lemma PreparePackages(db: Db, env: Env, info: Info, mode: Mode, budget: nat)
    ensures var (later, d) := Prepare(db, env, info, mode, budget);
      match Find(db.packages, PackageKey, PackageKey(PackageRow(env, info)))
      case Some(p) =>
        && later.packages == db.packages && later.nextPackage == db.nextPackage
        && (d.Err? || d.value.package == p)
      case None =>
        || (later.packages == db.packages && later.nextPackage == db.nextPackage && d.Err?)
        || (PackageCreated(db, later, env, info) && (d.Err? || d.value.package == db.nextPackage))
  {
    EnsurePackageIs(db, env, info);
  }

  // An ingested file goes under the existing package row of that name, or under the one it creates.
  lemma AddsUnderTarget(w: World, env: Env, info: Info, mode: Mode, content: Bytes, budget: nat)
    requires w.db.Valid()
    ensures var (later, r) := Add(w, env, info, mode, content, budget);
      r.Err? || (
        match Find(w.db.packages, PackageKey, PackageKey(PackageRow(env, info)))
        case Some(t) =>
          r.value.package == t && t in later.db.packages && later.db.packages[t] == w.db.packages[t]
        case None =>
          && r.value.package == w.db.nextPackage && r.value.package in later.db.packages
          && later.db.packages[r.value.package] == Labelled(env, info))
  {
    PreparePackages(w.db, env, info, mode, budget);
    PrepareBegins(w.db, env, info, mode, budget);
    AddKeepsValid(w, env, info, mode, content, budget);
    var (db, d) := Prepare(w.db, env, info, mode, budget);
    if d.Ok? {
      AttachLands(w.(db := db), env, info, content, d.value, if budget >= 2 then budget - 2 else 0);
    }
  }

  function Labelled(env: Env, info: Info): Package {
    var row := PackageRow(env, info);
    if row.via.Valid() then row else row.(via := Uploaded)
  }

  // ---- runs ----

  datatype Job =
    | Upload(info: Info, mode: Mode, content: Bytes, budget: nat)
    | Delete(target: Ref)
    | SetProp(ref: Ref, name: string, value: string)

  ghost function Remove(db: Db, target: Ref): Db {
    match target.level
    case OfPackage => db.Prune(target)
    case OfVersion => db.Prune(target)
    case OfFile => db.(files := db.files - {target.id})
  }

  ghost function Step(w: World, env: Env, job: Job): World {
    match job
    case Upload(info, mode, content, budget) => Add(w, env, info, mode, content, budget).0
    case Delete(target) => w.(db := Remove(w.db, target))
    case SetProp(ref, name, value) => w.(db := PutProperty(w.db, ref, name, value))
  }

  ghost function After(w: World, env: Env, jobs: seq<Job>): World
    decreases |jobs|
  {
    if jobs == [] then w else After(Step(w, env, jobs[0]), env, jobs[1..])
  }

  // No upload of the run has the digest of other bytes stored before it.
  ghost predicate NoCollision(w: World, env: Env, jobs: seq<Job>)
    decreases |jobs|
  {
    jobs == []
    || (!(jobs[0].Upload? && Collides(w, env, jobs[0].content)) && NoCollision(Step(w, env, jobs[0]), env, jobs[1..]))
  }

  predicate Collides(w: World, env: Env, content: Bytes) {
    env.Digest(content) in w.disk && w.disk[env.Digest(content)] != content
  }

  lemma CollisionFreeMeansNoClash(w: World, env: Env, content: Bytes)
    requires Intact(w, env) && !Collides(w, env, content)
    ensures !Clashes(w, env, content)
  {
    forall id | id in w.db.blobs && w.db.blobs[id].sha256 == env.Digest(content)
      ensures w.db.blobs[id].size == |content|
    {
      assert BytesOk(w, env, id);
    }
  }

  lemma RemoveKeepsValid(db: Db, target: Ref)
    requires db.Valid()
    ensures Remove(db, target).Valid() && Remove(db, target).blobs == db.blobs
  {
    if target.level == OfFile {
      DoKeepsValid(db, DeleteFile(target.id));
    } else {
      PruneKeepsValid(db, target);
    }
  }

  lemma StepKeepsIntact(w: World, env: Env, job: Job)
    requires Intact(w, env) && !(job.Upload? && Collides(w, env, job.content))
    ensures Intact(Step(w, env, job), env)
  {
    match job
    case Upload(info, mode, content, budget) =>
      CollisionFreeMeansNoClash(w, env, content);
      AddKeepsIntact(w, env, info, mode, content, budget);
    case Delete(target) =>
      RemoveKeepsValid(w.db, target);
      SameBlobsIntact(w, env, Remove(w.db, target));
    case SetProp(ref, name, value) =>
      PutPropertyKeepsValid(w.db, ref, name, value);
      SameBlobsIntact(w, env, PutProperty(w.db, ref, name, value));
  }

  // Whatever steps the ingests of a run stop at, every file row refers to a blob row and every blob
  // row to its bytes.
  lemma {:induction false} StoppingAnywhereKeepsIntact(w: World, env: Env, jobs: seq<Job>)
    requires Intact(w, env) && NoCollision(w, env, jobs)
    ensures Intact(After(w, env, jobs), env)
    decreases |jobs|
  {
    if jobs != [] {
      StepKeepsIntact(w, env, jobs[0]);
      StoppingAnywhereKeepsIntact(Step(w, env, jobs[0]), env, jobs[1..]);
    }
  }

  // Nothing stored yet is intact.
  lemma EmptyWorldIsIntact(env: Env, tenants: set<int>)
    ensures Intact(World(Empty(tenants), map[]), env)
  {
  }

  // ---- reading back ----

  lemma AddSaves(w: World, env: Env, info: Info, mode: Mode, content: Bytes, budget: nat)
    ensures var (later, r) := Add(w, env, info, mode, content, budget);
      later.disk == Save(w, env, content).disk || (r.Err? && later.disk == w.disk)
  {
  }

  // A successful ingest keeps every blob row true to its bytes exactly if its digest is not yet
  // recorded for bytes of another length.
  lemma SuccessKeepsIntactIff(w: World, env: Env, info: Info, mode: Mode, content: Bytes, budget: nat)
    requires Intact(w, env) && Add(w, env, info, mode, content, budget).1.Ok?
    ensures Intact(Add(w, env, info, mode, content, budget).0, env) <==> !Clashes(w, env, content)
  {
    if Clashes(w, env, content) {
      var later := Add(w, env, info, mode, content, budget).0;
      AddSaves(w, env, info, mode, content, budget);
      AddLands(w, env, info, mode, content, budget);
      var id :| id in w.db.blobs && w.db.blobs[id].sha256 == env.Digest(content) && w.db.blobs[id].size != |content|;
      assert later.db.blobs[id] == w.db.blobs[id] && !BytesOk(later, env, id);
    } else {
      AddKeepsIntact(w, env, info, mode, content, budget);
    }
  }

  lemma UploadKeepsBytes(w: World, env: Env, job: Job, file: nat)
    requires Intact(w, env) && job.Upload? && !Collides(w, env, job.content) && file in w.db.files
    ensures Read(Step(w, env, job), file) == Read(w, file)
  {
    var later := Step(w, env, job);
    AddLands(w, env, job.info, job.mode, job.content, job.budget);
    AddSaves(w, env, job.info, job.mode, job.content, job.budget);
    var blob := w.db.files[file].blob;
    assert BytesOk(w, env, blob);
    assert later.db.files[file] == w.db.files[file] && later.db.blobs[blob] == w.db.blobs[blob];
  }

  lemma StepKeepsBytes(w: World, env: Env, job: Job, file: nat)
    requires Intact(w, env) && !(job.Upload? && Collides(w, env, job.content))
    requires file in w.db.files && file in Step(w, env, job).db.files
    ensures Read(Step(w, env, job), file) == Read(w, file)
  {
    match job
    case Upload(_, _, _, _) => UploadKeepsBytes(w, env, job, file);
    case Delete(target) => RemoveKeepsValid(w.db, target);
    case SetProp(_, _, _) =>
  }

  lemma StepKeepsFileDead(w: World, env: Env, job: Job, file: nat)
    requires w.db.Valid() && file < w.db.nextFile
    ensures file < Step(w, env, job).db.nextFile
    ensures file !in w.db.files ==> file !in Step(w, env, job).db.files
  {
    if job.Upload? {
      AddLands(w, env, job.info, job.mode, job.content, job.budget);
    }
  }

  lemma {:induction false} FileStaysDead(w: World, env: Env, jobs: seq<Job>, file: nat)
    requires Intact(w, env) && NoCollision(w, env, jobs)
    requires file < w.db.nextFile && file !in w.db.files
    ensures file !in After(w, env, jobs).db.files
    decreases |jobs|
  {
    if jobs != [] {
      StepKeepsFileDead(w, env, jobs[0], file);
      StepKeepsIntact(w, env, jobs[0]);
      FileStaysDead(Step(w, env, jobs[0]), env, jobs[1..], file);
    }
  }

  // As long as its row is there, a file reads the same bytes.
  lemma {:induction false} BytesStayReadable(w: World, env: Env, jobs: seq<Job>, file: nat)
    requires Intact(w, env) && NoCollision(w, env, jobs)
    requires file in w.db.files && file in After(w, env, jobs).db.files
    ensures Read(After(w, env, jobs), file) == Read(w, file)
    decreases |jobs|
  {
    if jobs != [] {
      var next := Step(w, env, jobs[0]);
      StepKeepsIntact(w, env, jobs[0]);
      StepKeepsFileDead(w, env, jobs[0], file);
      if file !in next.db.files {
        FileStaysDead(next, env, jobs[1..], file);
      } else {
        StepKeepsBytes(w, env, jobs[0], file);
        BytesStayReadable(next, env, jobs[1..], file);
      }
    }
  }

  // Reading a successfully ingested file at any later time gives exactly the bytes ingested, unless
  // the file was deleted.
  lemma IngestedBytesReadBack(w: World, env: Env, info: Info, mode: Mode, content: Bytes, budget: nat, jobs: seq<Job>)
    requires Intact(w, env) && NoCollision(w, env, [Upload(info, mode, content, budget)] + jobs)
    ensures var (w1, r) := Add(w, env, info, mode, content, budget);
      (r.Ok? && r.value.file in After(w1, env, jobs).db.files)
      ==> Read(After(w1, env, jobs), r.value.file) == Some(content)
  {
    var job := Upload(info, mode, content, budget);
    assert ([job] + jobs)[1..] == jobs;
    var (w1, r) := Add(w, env, info, mode, content, budget);
    assert w1 == Step(w, env, job);
    StepKeepsIntact(w, env, job);
    AddLinks(w, env, info, mode, content, budget);
    if r.Ok? && r.value.file in After(w1, env, jobs).db.files {
      BytesStayReadable(w1, env, jobs, r.value.file);
    }
  }

  // File rows with equal bytes share one blob row.
  lemma EqualBytesShareABlob(w: World, env: Env, f: nat, g: nat)
    requires Intact(w, env) && f in w.db.files && g in w.db.files
    ensures Read(w, f).Some? && Read(w, g).Some?
    ensures Read(w, f) == Read(w, g) <==> w.db.files[f].blob == w.db.files[g].blob
  {
    assert BytesOk(w, env, w.db.files[f].blob) && BytesOk(w, env, w.db.files[g].blob);
  }

  // ---- the rows and properties an ingest writes ----

  ghost predicate PackageMadeIs(db: Db, later: Db, env: Env, info: Info, p: nat) {
    var lookup := if info.lookup != "" then info.lookup else env.lower(info.name);
    && p in later.packages && later.packages[p].lowerName == lookup
    && later.packages[p].tenant == info.tenant && later.packages[p].typ == info.typ
    && (p !in db.packages ==>
          var via := if info.via.Other? then Uploaded else info.via;
          later.packages[p] == Package(info.tenant, info.typ, info.name, lookup, info.now, via))
  }


  // The rows of a successful ingest, column by column. Existing package, version and blob rows are used
  // as they are, and new ones and the file row get what the upload says.
  lemma RowsOf(w: World, env: Env, info: Info, mode: Mode, content: Bytes, budget: nat)
    requires w.db.Valid()
    ensures var (later, r) := Add(w, env, info, mode, content, budget);
      r.Ok? ==>
        var d := r.value;
        && PackageMadeIs(w.db, later.db, env, info, d.package) && VersionMadeIs(w.db, later.db, env, info, d)
        && d.file in later.db.files
        && var blob := later.db.files[d.file].blob;
          && BlobMadeIs(w.db, later.db, env, info, content, blob)
          && later.db.files[d.file]
             == File(d.version, blob, info.filename, env.lower(info.filename), info.isLead, info.now)
  {
    AddLinks(w, env, info, mode, content, budget);
    AddsUnderTarget(w, env, info, mode, content, budget);
  }

  // The value of the last entry of that name.
  function LastValue(props: seq<(string, string)>, name: string): Option<string> {
    if props == [] then None
    else
      var (n, value) := props[|props| - 1];
      if n == name then Some(value) else LastValue(props[..|props| - 1], name)
  }

  // A version shows of these entries the last of each name, and otherwise what it showed before.
  ghost predicate Shows(before: Db, later: Db, version: nat, props: seq<(string, string)>, ref: Ref, name: string) {
    var given := if ref == Ref(OfVersion, version) then LastValue(props, name) else None;
    later.Property(ref, name) == if given.Some? then given else before.Property(ref, name)
  }

  lemma {:induction false} PutAllSets(db: Db, version: nat, props: seq<(string, string)>, ref: Ref, name: string)
    requires db.Valid()
    ensures Shows(db, PutAll(db, version, props), version, props, ref, name)
  {
    if props != [] {
      var before := props[..|props| - 1];
      var (n, value) := props[|props| - 1];
      PutAllKeeps(db, version, before);
      PutAllSets(db, version, before, ref, name);
      PutPropertySets(PutAll(db, version, before), Ref(OfVersion, version), n, value, ref, name);
    }
  }

  lemma RecordLeavesProps(w: World, env: Env, info: Info, content: Bytes, d: Done, budget: nat)
    ensures Record(w, env, info, content, d, budget).0.db.props == w.db.props
  {
  }

  lemma AttachSets(w: World, env: Env, info: Info, content: Bytes, d: Done, budget: nat, ref: Ref, name: string)
    requires w.db.Valid()
    ensures var done := if budget < |info.versionProps| then budget else |info.versionProps|;
      Shows(w.db, Attach(w, env, info, content, d, budget).0.db, d.version, info.versionProps[..done], ref, name)
  {
    var n := |info.versionProps|;
    if budget < n {
      PutAllSets(w.db, d.version, info.versionProps[..budget], ref, name);
    } else {
      assert info.versionProps[..n] == info.versionProps;
      PutAllSets(w.db, d.version, info.versionProps, ref, name);
      RecordLeavesProps(w.(db := PutAll(w.db, d.version, info.versionProps)), env, info, content, d, budget - n);
    }
  }

  lemma PrepareLeavesProps(db: Db, env: Env, info: Info, mode: Mode, budget: nat)
    ensures var (later, d) := Prepare(db, env, info, mode, budget);
      && later.props == db.props
      && (d.Err? ==> d.error != DuplicateFile && (d.error == Stopped ==> budget < 2))
  {
  }

  // A successful ingest has set on its version every property given, the last entry of a name counting,
  // and left all other properties. One that stopped after making or finding its version has done so for
  // the entries its steps sufficed for.
  ghost predicate Wrote(db: Db, later: Db, env: Env, info: Info, budget: nat, r: Result<Done, Error>, v: nat, ref: Ref,
                        name: string)
  {
    if r.Ok? then v == r.value.version && Shows(db, later, v, info.versionProps, ref, name)
    else if budget >= 2 && r.error in {Stopped, DuplicateFile} then
      var n := |info.versionProps|;
      && v in later.versions && later.versions[v].lowerVersion == env.lower(info.version)
      && Shows(db, later, v, info.versionProps[..if budget < n + 2 then budget - 2 else n], ref, name)
    else later.Property(ref, name) == db.Property(ref, name)
  }

  lemma ShowsSame(db: Db, same: Db, later: Db, v: nat, props: seq<(string, string)>, ref: Ref, name: string)
    requires same.props == db.props && Shows(same, later, v, props, ref, name)
    ensures Shows(db, later, v, props, ref, name)
  {
  }

  lemma AttachWrites(db: Db, w: World, env: Env, info: Info, content: Bytes, d: Done, budget: nat, ref: Ref,
                     name: string)
    requires db.Valid() && Begun(db, w.db) && Prepared(w.db, env, info, d)
    requires w.db.props == db.props && budget >= 2
    ensures var (later, r) := Attach(w, env, info, content, d, budget - 2);
      Wrote(db, later.db, env, info, budget, r, d.version, ref, name)
  {
    var (later, r) := Attach(w, env, info, content, d, budget - 2);
    var n := |info.versionProps|;
    var props := info.versionProps[..if budget < n + 2 then budget - 2 else n];
    assert Shows(db, later.db, d.version, props, ref, name) by {
      AttachSets(w, env, info, content, d, budget - 2, ref, name);
      ShowsSame(db, w.db, later.db, d.version, props, ref, name);
    }
    assert d.version in later.db.versions && later.db.versions[d.version] == w.db.versions[d.version] by {
      AttachLands(w, env, info, content, d, budget - 2);
    }
    AttachAnswers(db, w, env, info, content, d, budget - 2);
    assert info.versionProps[..n] == info.versionProps;
  }

  lemma PropertiesOf(w: World, env: Env, info: Info, mode: Mode, content: Bytes, budget: nat, ref: Ref, name: string)
    returns (v: nat)
    requires w.db.Valid()
    ensures var (later, r) := Add(w, env, info, mode, content, budget);
      Wrote(w.db, later.db, env, info, budget, r, v, ref, name)
  {
    PrepareLeavesProps(w.db, env, info, mode, budget);
    var (db, d) := Prepare(w.db, env, info, mode, budget);
    v := 0;
    if d.Ok? {
      PrepareBegins(w.db, env, info, mode, budget);
      PrepareLinks(w.db, env, info, mode, budget);
      v := d.value.version;
      AttachWrites(w.db, w.(db := db), env, info, content, d.value, budget, ref, name);
    }
  }

  // ---- stopping and trying again ----

  ghost predicate FileIs(db: Db, env: Env, info: Info, f: nat) {
    && f in db.files && db.files[f].lowerName == env.lower(info.filename)
    && db.files[f].version in db.versions
    && var v := db.versions[db.files[f].version];
      v.lowerVersion == env.lower(info.version)
      && v.package in db.packages && PackageKey(db.packages[v.package]) == PackageKey(PackageRow(env, info))
  }

  ghost predicate HasFile(db: Db, env: Env, info: Info) {
    exists f :: FileIs(db, env, info, f)
  }

  // The refusal of an existing version outlives an ingest that stopped after creating it: trying
  // again fails although the version has no file from either attempt.
  lemma StoppedNewVersionCannotBeRetried(w: World, env: Env, info: Info, content: Bytes, budget: nat, again: nat)
    requires Intact(w, env) && !Clashes(w, env, content)
    requires Add(w, env, info, MustBeNew, content, budget).1 == Err(Stopped) && budget >= 2 && again >= 2
    ensures var w1 := Add(w, env, info, MustBeNew, content, budget).0;
      var (w2, r) := Add(w1, env, info, MustBeNew, content, again);
      r == Err(DuplicateVersion) && w2.db.files == w.db.files
  {
    AddKeepsIntact(w, env, info, MustBeNew, content, budget);
    var w1 := Add(w, env, info, MustBeNew, content, budget).0;
    AddLands(w, env, info, MustBeNew, content, budget);
    AddLands(w1, env, info, MustBeNew, content, again);
    var p, v := VersionMade(w, env, info, MustBeNew, content, budget);
    FindIs(w1.db.packages, PackageKey, p);
    FindIs(w1.db.versions, VersionKey, v);
  }

  lemma VersionMade(w: World, env: Env, info: Info, mode: Mode, content: Bytes, budget: nat) returns (p: nat, v: nat)
    requires w.db.Valid()
    requires Add(w, env, info, mode, content, budget).1 == Err(Stopped) && budget >= 2
    ensures Prepared(Add(w, env, info, mode, content, budget).0.db, env, info, Done(p, v, 0))
  {
    PrepareBegins(w.db, env, info, mode, budget);
    PrepareLinks(w.db, env, info, mode, budget);
    var (db, d) := Prepare(w.db, env, info, mode, budget);
    AttachLands(w.(db := db), env, info, content, d.value, budget - 2);
    p, v := d.value.package, d.value.version;
  }

  ghost predicate VersionIs(db: Db, env: Env, info: Info, v: nat) {
    && v in db.versions && db.versions[v].lowerVersion == env.lower(info.version)
    && db.versions[v].package in db.packages
    && PackageKey(db.packages[db.versions[v].package]) == PackageKey(PackageRow(env, info))
  }

  ghost predicate HasVersion(db: Db, env: Env, info: Info) {
    exists v :: VersionIs(db, env, info, v)
  }

  // What the caller can look up beforehand: an ingest with these steps and rows goes through.
  ghost predicate WillLand(db: Db, env: Env, info: Info, mode: Mode, budget: nat) {
    && info.tenant != 0 && info.tenant in db.tenants
    && budget >= |info.versionProps| + 5
    && (if mode == MustBeNew then !HasVersion(db, env, info) else !HasFile(db, env, info))
  }

  lemma HasVersionIs(db: Db, later: Db, env: Env, info: Info, p: nat)
    requires db.Valid() && later.Valid() && later.versions == db.versions && Kept(db.packages, later.packages)
    requires p in later.packages && PackageKey(later.packages[p]) == PackageKey(PackageRow(env, info))
    ensures HasVersion(db, env, info) <==> Find(later.versions, VersionKey, (p, env.lower(info.version))).Some?
  {
    if HasVersion(db, env, info) {
      var v :| VersionIs(db, env, info, v);
      assert VersionKey(later.versions[v]) == (p, env.lower(info.version));
    }
    match Find(later.versions, VersionKey, (p, env.lower(info.version)))
    case None =>
    case Some(v) =>
      assert db.versions[v].package in db.packages;
      assert VersionIs(db, env, info, v);
  }

  lemma HasFileHasVersion(db: Db, env: Env, info: Info)
    ensures HasFile(db, env, info) ==> HasVersion(db, env, info)
  {
    if HasFile(db, env, info) {
      var f :| FileIs(db, env, info, f);
      assert VersionIs(db, env, info, db.files[f].version);
    }
  }

  lemma PrepareAnswers(db: Db, env: Env, info: Info, mode: Mode, budget: nat)
    requires db.Valid()
    ensures var d := Prepare(db, env, info, mode, budget).1;
      if info.tenant == 0 then d == Err(TenantRequired)
      else if budget == 0 then d == Err(Stopped)
      else if info.tenant !in db.tenants then d == Err(ConstraintFailed)
      else if budget == 1 then d == Err(Stopped)
      else if mode == MustBeNew && HasVersion(db, env, info) then d == Err(DuplicateVersion)
      else d.Ok?
  {
    EnsurePackageBegins(db, env, info);
    EnsurePackageIs(db, env, info);
    EnsurePackageFinds(db, PackageRow(env, info));
    var (db1, p) := AddPackage(db, PackageRow(env, info));
    if p.Ok? {
      EnsurePackageKeeps(db, env, info);
      HasVersionIs(db, db1, env, info, p.value);
    }
  }

  lemma AttachAnswers(db: Db, w: World, env: Env, info: Info, content: Bytes, d: Done, budget: nat)
    requires db.Valid() && Begun(db, w.db) && Prepared(w.db, env, info, d)
    ensures var r := Attach(w, env, info, content, d, budget).1;
      if budget < |info.versionProps| + 3 then r == Err(Stopped)
      else if HasFile(db, env, info) then r == Err(DuplicateFile)
      else r.Ok? && r.value.version == d.version
  {
    HasFileIs(db, w.db, env, info, d.package, d.version);
    if budget >= |info.versionProps| + 3 {
      PutAllKeeps(w.db, d.version, info.versionProps);
      RecordBlobLands(Save(w.(db := PutAll(w.db, d.version, info.versionProps)), env, content), env, info, content);
    }
  }

  // The answer of an ingest in every case, in the order in which its steps find out: all of it can be
  // looked up beforehand.
  lemma AddAnswers(w: World, env: Env, info: Info, mode: Mode, content: Bytes, budget: nat)
    requires w.db.Valid()
    ensures var r := Add(w, env, info, mode, content, budget).1;
      if info.tenant == 0 then r == Err(TenantRequired)
      else if budget == 0 then r == Err(Stopped)
      else if info.tenant !in w.db.tenants then r == Err(ConstraintFailed)
      else if budget == 1 then r == Err(Stopped)
      else if mode == MustBeNew && HasVersion(w.db, env, info) then r == Err(DuplicateVersion)
      else if budget < |info.versionProps| + 5 then r == Err(Stopped)
      else if HasFile(w.db, env, info) then r == Err(DuplicateFile)
      else r.Ok?
  {
    PrepareAnswers(w.db, env, info, mode, budget);
    var (db, d) := Prepare(w.db, env, info, mode, budget);
    if d.Ok? {
      PrepareBegins(w.db, env, info, mode, budget);
      PrepareLinks(w.db, env, info, mode, budget);
      AttachAnswers(w.db, w.(db := db), env, info, content, d.value, budget - 2);
    }
  }

  lemma HasFileIs(db: Db, later: Db, env: Env, info: Info, p: nat, v: nat)
    requires db.Valid() && later.Valid() && later.files == db.files
    requires Kept(db.packages, later.packages) && Kept(db.versions, later.versions)
    requires p in later.packages && PackageKey(later.packages[p]) == PackageKey(PackageRow(env, info))
    requires v in later.versions && VersionKey(later.versions[v]) == (p, env.lower(info.version))
    ensures HasFile(db, env, info) <==> Find(later.files, FileKey, (v, env.lower(info.filename))).Some?
  {
    if HasFile(db, env, info) {
      var f :| FileIs(db, env, info, f);
      assert db.files[f].version == v;
      assert FileKey(later.files[f]) == (v, env.lower(info.filename));
    }
    match Find(later.files, FileKey, (v, env.lower(info.filename)))
    case None =>
    case Some(f) =>
      assert db.files[f].version in db.versions;
      assert db.versions[v].package in db.packages;
      assert FileIs(db, env, info, f);
  }

  lemma StoppedHasFile(w: World, env: Env, info: Info, mode: Mode, content: Bytes, budget: nat)
    requires Intact(w, env) && !Clashes(w, env, content)
    requires Add(w, env, info, mode, content, budget).1.Err?
    ensures var later := Add(w, env, info, mode, content, budget).0;
      (HasFile(later.db, env, info) <==> HasFile(w.db, env, info)) && later.db.tenants == w.db.tenants
  {
    var later := Add(w, env, info, mode, content, budget).0;
    AddLands(w, env, info, mode, content, budget);
    AddKeepsIntact(w, env, info, mode, content, budget);
    forall f
      ensures FileIs(later.db, env, info, f) <==> FileIs(w.db, env, info, f)
    {
      if f in w.db.files {
        var v := w.db.files[f].version;
        assert v in w.db.versions && w.db.versions[v].package in w.db.packages;
      }
    }
  }

  // Wherever an ingest into a possibly existing version stopped, trying again with steps enough
  // succeeds, unless the version had a file of that name before the first attempt.
  lemma StoppedAddCanBeRetried(w: World, env: Env, info: Info, content: Bytes, budget: nat, again: nat)
    requires Intact(w, env) && !Clashes(w, env, content)
    requires Add(w, env, info, MayExist, content, budget).1 == Err(Stopped)
    requires info.tenant in w.db.tenants && again >= |info.versionProps| + 5
    ensures var w1 := Add(w, env, info, MayExist, content, budget).0;
      var r := Add(w1, env, info, MayExist, content, again).1;
      if HasFile(w.db, env, info) then r == Err(DuplicateFile) else r.Ok?
  {
    AddKeepsIntact(w, env, info, MayExist, content, budget);
    StoppedHasFile(w, env, info, MayExist, content, budget);
    AddAnswers(Add(w, env, info, MayExist, content, budget).0, env, info, MayExist, content, again);
  }

  lemma StoppedHasVersion(w: World, env: Env, info: Info, mode: Mode, content: Bytes, budget: nat)
    requires w.db.Valid() && Add(w, env, info, mode, content, budget).1 == Err(Stopped)
    ensures var later := Add(w, env, info, mode, content, budget).0;
      && (HasVersion(later.db, env, info) <==> budget >= 2 || HasVersion(w.db, env, info))
      && later.db.tenants == w.db.tenants
  {
    var later := Add(w, env, info, mode, content, budget).0;
    AddLands(w, env, info, mode, content, budget);
    if budget >= 2 {
      var p, v := VersionMade(w, env, info, mode, content, budget);
      assert VersionIs(later.db, env, info, v);
    } else {
      EnsurePackageKeeps(w.db, env, info);
      forall v
        ensures VersionIs(later.db, env, info, v) <==> VersionIs(w.db, env, info, v)
      {
        if v in w.db.versions {
          assert w.db.versions[v].package in w.db.packages;
        }
      }
    }
  }

  // Trying a stopped upload of a new version again, with steps enough, succeeds exactly if the first
  // attempt stopped before it made the version and the version was not there before.
  lemma StoppedNewVersionRetriedIff(w: World, env: Env, info: Info, content: Bytes, budget: nat, again: nat)
    requires Intact(w, env) && !Clashes(w, env, content)
    requires Add(w, env, info, MustBeNew, content, budget).1 == Err(Stopped)
    requires info.tenant in w.db.tenants && again >= |info.versionProps| + 5
    ensures var w1 := Add(w, env, info, MustBeNew, content, budget).0;
      var r := Add(w1, env, info, MustBeNew, content, again).1;
      if budget < 2 && !HasVersion(w.db, env, info) then r.Ok? else r == Err(DuplicateVersion)
  {
    var w1 := Add(w, env, info, MustBeNew, content, budget).0;
    AddKeepsIntact(w, env, info, MustBeNew, content, budget);
    StoppedHasVersion(w, env, info, MustBeNew, content, budget);
    AddAnswers(w1, env, info, MustBeNew, content, again);
    HasFileHasVersion(w1.db, env, info);
  }

  // ---- the service as it runs ----

  class Service {
    const env: Env
    const models: Store
    var disk: map<string, Bytes>

    ghost function View(): World
      reads this, models
    {
      World(models.DB, disk)
    }

    constructor (env: Env, models: Store)
      ensures this.env == env && this.models == models && View() == World(models.DB, map[])
    {
      this.env := env;
      this.models := models;
      disk := map[];
    }

    method CreatePackageAndAddFile(info: Info, content: Bytes, budget: nat) returns (r: Result<Done, Error>)
      requires models.DB.Valid()
      modifies this, models
      ensures (View(), r) == Add(old(View()), env, info, MustBeNew, content, budget) && models.DB.Valid()
    {
      if info.tenant == 0 { return Err(TenantRequired); }
      if budget == 0 { return Err(Stopped); }
      var p := models.GetOrCreatePackageWithLookup(PackageRow(env, info));
      if p.Err? { return Err(p.error); }
      if budget == 1 { return Err(Stopped); }
      var v := models.CreateVersion(VersionRow(env, info, p.value));
      if v.Err? { return Err(v.error); }
      r := AttachFile(info, content, Done(p.value, v.value, 0), budget - 2);
    }

    method CreatePackageOrAddFileToExisting(info: Info, content: Bytes, budget: nat) returns (r: Result<Done, Error>)
      requires models.DB.Valid()
      modifies this, models
      ensures (View(), r) == Add(old(View()), env, info, MayExist, content, budget) && models.DB.Valid()
    {
      if info.tenant == 0 { return Err(TenantRequired); }
      if budget == 0 { return Err(Stopped); }
      var p := models.GetOrCreatePackageWithLookup(PackageRow(env, info));
      if p.Err? { return Err(p.error); }
      if budget == 1 { return Err(Stopped); }
      var row := VersionRow(env, info, p.value);
      var id;
      var found := models.GetVersion(p.value, row.lowerVersion);
      if found.Some? {
        id := found.value;
      } else {
        var v := models.CreateVersion(row);
        if v.Err? { return Err(v.error); }
        id := v.value;
      }
      r := AttachFile(info, content, Done(p.value, id, 0), budget - 2);
    }

    method AttachFile(info: Info, content: Bytes, d: Done, budget: nat) returns (r: Result<Done, Error>)
      requires models.DB.Valid()
      modifies this, models
      ensures (View(), r) == Attach(old(View()), env, info, content, d, budget) && models.DB.Valid()
    {
      var n := |info.versionProps|;
      ghost var db := models.DB;
      for i := 0 to n
        invariant i <= budget && disk == old(disk)
        invariant models.DB == PutAll(db, d.version, info.versionProps[..i]) && models.DB.Valid()
      {
        if budget == i { return Err(Stopped); }
        assert info.versionProps[..i + 1][..i] == info.versionProps[..i];
        var (k, value) := info.versionProps[i];
        var ok := models.SetProperty(Ref(OfVersion, d.version), k, value, 4);
      }
      assert info.versionProps[..n] == info.versionProps;
      r := RecordContent(info, content, d, budget - n);
    }

    method RecordContent(info: Info, content: Bytes, d: Done, budget: nat) returns (r: Result<Done, Error>)
      requires models.DB.Valid()
      modifies this, models
      ensures (View(), r) == Record(old(View()), env, info, content, d, budget) && models.DB.Valid()
    {
      if budget == 0 { return Err(Stopped); }
      disk := disk[env.Digest(content) := content];
      if budget == 1 { return Err(Stopped); }
      var b := models.GetOrCreateBlob(BlobRow(env, info, content));
      if b.Err? { return Err(b.error); }
      if budget == 2 { return Err(Stopped); }
      var f := models.CreateFile(FileRow(env, info, d.version, b.value));
      r := match f case Ok(id) => Ok(d.(file := id)) case Err(e) => Err(e);
    }

    method OpenFile(file: nat) returns (r: Option<Bytes>)
      ensures r == Read(View(), file)
    {
      if file !in models.DB.files { return None; }
      var blob := models.DB.files[file].blob;
      if blob !in models.DB.blobs { return None; }
      var path := models.DB.blobs[blob].sha256;
      r := if path in disk then Some(disk[path]) else None;
    }
  }
}
