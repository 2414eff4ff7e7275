// The relational metadata store: packages, versions, files, blobs and properties.
//
// `Db` is the database as a value. The class composes SQL statements on it, each transaction on a
// working copy. Each deletion is specified by the tree of rows below its target.
module Models {
  import opened Wrappers

  // ---- tables ----

  datatype CreatedVia = Uploaded | PullThrough | Other(text: string) {
    predicate Valid() { !Other? }
  }

  datatype Package = Package(tenant: int, typ: string, name: string, lowerName: string, created: int, via: CreatedVia)
  datatype Version = Version(package: nat, version: string, lowerVersion: string, metadata: string, created: int)
  datatype Blob = Blob(size: nat, md5: string, sha1: string, sha256: string, sha512: string, created: int)
  datatype File = File(version: nat, blob: nat, name: string, lowerName: string, isLead: bool, created: int)

  datatype Level = OfPackage | OfVersion | OfFile {
    function Depth(): nat { if OfPackage? then 0 else if OfVersion? then 1 else 2 }
  }

  // A row of packages, versions or files, which a property may hang off.
  datatype Ref = Ref(level: Level, id: nat)

  datatype Property = Property(ref: Ref, name: string, value: string)

  function PackageKey(p: Package): (int, string, string) { (p.tenant, p.typ, p.lowerName) }
  function VersionKey(v: Version): (nat, string) { (v.package, v.lowerVersion) }
  function BlobKey(b: Blob): string { b.sha256 }
  function FileKey(f: File): (nat, string) { (f.version, f.lowerName) }
  function PropertyKey(p: Property): (Ref, string) { (p.ref, p.name) }

  // UNIQUE over the columns `key` picks.
  ghost predicate Unique<R, K(!new)>(table: map<nat, R>, key: R -> K) {
    forall i, j :: i in table && j in table && key(table[i]) == key(table[j]) ==> i == j
  }

  // AUTOINCREMENT hands out ids from `next` on.
  ghost predicate IdsBelow<R>(table: map<nat, R>, next: nat) {
    forall i :: i in table ==> i < next
  }

  ghost function Find<R, K(!new)>(table: map<nat, R>, key: R -> K, k: K): (r: Option<nat>)
    ensures r.Some? ==> r.value in table && key(table[r.value]) == k
    ensures r.None? ==> forall i :: i in table ==> key(table[i]) != k
  {
    if exists i :: i in table && key(table[i]) == k
    then var i :| i in table && key(table[i]) == k; Some(i)
    else None
  }

  lemma FindIs<R, K(!new)>(table: map<nat, R>, key: R -> K, id: nat)
    requires Unique(table, key) && id in table
    ensures Find(table, key, key(table[id])) == Some(id)
  {
  }

  lemma InsertKeepsTable<R, K(!new)>(table: map<nat, R>, key: R -> K, next: nat, row: R)
    requires Unique(table, key) && IdsBelow(table, next)
    requires Find(table, key, key(row)).None?
    ensures Unique(table[next := row], key) && IdsBelow(table[next := row], next + 1)
  {
  }

  method Select<R, K(!new, ==)>(table: map<nat, R>, key: R -> K, k: K) returns (r: Option<nat>)
    requires Unique(table, key)
    ensures r == Find(table, key, k)
  {
    r := None;
    if i :| i in table && key(table[i]) == k {
      FindIs(table, key, i);
      r := Some(i);
    }
  }

  datatype Db = Db(
    tenants: set<int>,
    packages: map<nat, Package>, versions: map<nat, Version>, blobs: map<nat, Blob>, files: map<nat, File>,
    props: map<nat, Property>,
    nextPackage: nat, nextVersion: nat, nextBlob: nat, nextFile: nat, nextProp: nat)
  {
    ghost predicate PackagesOk() {
      Unique(packages, PackageKey) && IdsBelow(packages, nextPackage)
        && forall i :: i in packages ==> packages[i].tenant in tenants
    }

    ghost predicate VersionsOk() {
      Unique(versions, VersionKey) && IdsBelow(versions, nextVersion)
        && forall i :: i in versions ==> versions[i].package in packages
    }

    ghost predicate BlobsOk() {
      Unique(blobs, BlobKey) && IdsBelow(blobs, nextBlob)
    }

    ghost predicate FilesOk() {
      Unique(files, FileKey) && IdsBelow(files, nextFile)
        && forall i :: i in files ==> files[i].version in versions && files[i].blob in blobs
    }

    // The schema has no UNIQUE on properties; the operations keep one value per name.
    ghost predicate PropsOk() {
      Unique(props, PropertyKey) && IdsBelow(props, nextProp)
    }

    ghost predicate Valid() {
      PackagesOk() && VersionsOk() && BlobsOk() && FilesOk() && PropsOk()
    }

    predicate Live(r: Ref) {
      match r.level
      case OfPackage => r.id in packages
      case OfVersion => r.id in versions
      case OfFile => r.id in files
    }

    // Whether the id has ever been handed out.
    predicate Allocated(r: Ref) {
      match r.level
      case OfPackage => r.id < nextPackage
      case OfVersion => r.id < nextVersion
      case OfFile => r.id < nextFile
    }

    function Parent(r: Ref): Option<Ref> {
      match r.level
      case OfPackage => None
      case OfVersion => if r.id in versions then Some(Ref(OfPackage, versions[r.id].package)) else None
      case OfFile => if r.id in files then Some(Ref(OfVersion, files[r.id].version)) else None
    }

    // r is `top` or hangs below it.
    predicate Below(r: Ref, top: Ref)
      decreases r.level.Depth()
    {
      r == top || (Parent(r).Some? && Below(Parent(r).value, top))
    }

    // Without the rows of the tree below `top` and without their properties; blobs stay.
    function Prune(top: Ref): Db {
      this.(packages := map i | i in packages && !Below(Ref(OfPackage, i), top) :: packages[i],
            versions := map i | i in versions && !Below(Ref(OfVersion, i), top) :: versions[i],
            files := map i | i in files && !Below(Ref(OfFile, i), top) :: files[i],
            props := map i | i in props && !Below(props[i].ref, top) :: props[i])
    }

    ghost function Property(ref: Ref, name: string): Option<string> {
      match Find(props, PropertyKey, (ref, name))
      case None => None
      case Some(i) => Some(props[i].value)
    }

    function WithoutProperty(ref: Ref, name: string): Db {
      this.(props := map i | i in props && PropertyKey(props[i]) != (ref, name) :: props[i])
    }
  }

  function Empty(tenants: set<int>): Db {
    Db(tenants, map[], map[], map[], map[], map[], 1, 1, 1, 1, 1)
  }

  // ---- operations ----

  datatype Error = NotExist | DuplicateVersion | DuplicateFile | ConstraintFailed | TenantRequired | Stopped

  datatype Op =
    | GetOrCreatePackage(package: Package)
    | CreateVersion(version: Version)
    | GetOrCreateBlob(blob: Blob)
    | CreateFile(file: File)
    | SetProperty(ref: Ref, name: string, value: string)
    | DeleteProperty(ref: Ref, name: string)
    | DeleteFile(id: nat)
    | DeleteVersion(id: nat)
    | DeletePackage(id: nat)
    | SetPackageCreatedVia(id: nat, via: CreatedVia)

  type Reply = Result<nat, Error>

  ghost function AddPackage(db: Db, p: Package): (Db, Reply) {
    match Find(db.packages, PackageKey, PackageKey(p))
    case Some(id) => (db, Ok(id))
    case None =>
      if p.tenant !in db.tenants then (db, Err(ConstraintFailed))
      else
        var row := if p.via.Valid() then p else p.(via := Uploaded);
        (db.(packages := db.packages[db.nextPackage := row], nextPackage := db.nextPackage + 1), Ok(db.nextPackage))
  }

  ghost function AddVersion(db: Db, v: Version): (Db, Reply) {
    if Find(db.versions, VersionKey, VersionKey(v)).Some? then (db, Err(DuplicateVersion))
    else if v.package !in db.packages then (db, Err(ConstraintFailed))
    else
      var row := if v.metadata == "" then v.(metadata := "{}") else v;
      (db.(versions := db.versions[db.nextVersion := row], nextVersion := db.nextVersion + 1), Ok(db.nextVersion))
  }

  ghost function AddBlob(db: Db, b: Blob): (Db, Reply) {
    match Find(db.blobs, BlobKey, b.sha256)
    case Some(id) => (db, Ok(id))
    case None => (db.(blobs := db.blobs[db.nextBlob := b], nextBlob := db.nextBlob + 1), Ok(db.nextBlob))
  }

  ghost function AddFile(db: Db, f: File): (Db, Reply) {
    if Find(db.files, FileKey, FileKey(f)).Some? then (db, Err(DuplicateFile))
    else if f.version !in db.versions || f.blob !in db.blobs then (db, Err(ConstraintFailed))
    else (db.(files := db.files[db.nextFile := f], nextFile := db.nextFile + 1), Ok(db.nextFile))
  }

  function PutProperty(db: Db, ref: Ref, name: string, value: string): Db {
    var without := db.WithoutProperty(ref, name);
    without.(props := without.props[db.nextProp := Property(ref, name, value)], nextProp := db.nextProp + 1)
  }

  ghost function Do(db: Db, op: Op): (Db, Reply) {
    match op
    case GetOrCreatePackage(p) => AddPackage(db, p)
    case CreateVersion(v) => AddVersion(db, v)
    case GetOrCreateBlob(b) => AddBlob(db, b)
    case CreateFile(f) => AddFile(db, f)
    case SetProperty(ref, name, value) => (PutProperty(db, ref, name, value), Ok(0))
    case DeleteProperty(ref, name) => (db.WithoutProperty(ref, name), Ok(0))
    case DeleteFile(id) => (db.(files := db.files - {id}), Ok(0))
    case DeleteVersion(id) => (db.Prune(Ref(OfVersion, id)), Ok(0))
    case DeletePackage(id) => (db.Prune(Ref(OfPackage, id)), Ok(0))
    case SetPackageCreatedVia(id, via) =>
      if id !in db.packages then (db, Err(NotExist))
      else (db.(packages := db.packages[id := db.packages[id].(via := via)]), Ok(0))
  }

  // ---- what the schema and the operations keep ----

  lemma AddPackageKeepsValid(db: Db, p: Package)
    requires db.Valid()
    ensures AddPackage(db, p).0.Valid()
  {
    if Find(db.packages, PackageKey, PackageKey(p)).None? && p.tenant in db.tenants {
      var row := if p.via.Valid() then p else p.(via := Uploaded);
      InsertKeepsTable(db.packages, PackageKey, db.nextPackage, row);
    }
  }

  lemma AddVersionKeepsValid(db: Db, v: Version)
    requires db.Valid()
    ensures AddVersion(db, v).0.Valid()
  {
    if Find(db.versions, VersionKey, VersionKey(v)).None? {
      var row := if v.metadata == "" then v.(metadata := "{}") else v;
      InsertKeepsTable(db.versions, VersionKey, db.nextVersion, row);
    }
  }

  lemma AddBlobKeepsValid(db: Db, b: Blob)
    requires db.Valid()
    ensures AddBlob(db, b).0.Valid()
  {
    if Find(db.blobs, BlobKey, b.sha256).None? {
      InsertKeepsTable(db.blobs, BlobKey, db.nextBlob, b);
    }
  }

  lemma AddFileKeepsValid(db: Db, f: File)
    requires db.Valid()
    ensures AddFile(db, f).0.Valid()
  {
    if Find(db.files, FileKey, FileKey(f)).None? {
      InsertKeepsTable(db.files, FileKey, db.nextFile, f);
    }
  }

  lemma PutPropertyKeepsValid(db: Db, ref: Ref, name: string, value: string)
    requires db.Valid()
    ensures PutProperty(db, ref, name, value).Valid()
  {
    InsertKeepsTable(db.WithoutProperty(ref, name).props, PropertyKey, db.nextProp, Property(ref, name, value));
  }

  // Dropping rows and rewriting other columns than the key keep the constraints of a table.
  lemma ShrinkKeepsTable<R, K(!new)>(table: map<nat, R>, less: map<nat, R>, key: R -> K, next: nat)
    requires Unique(table, key) && IdsBelow(table, next)
    requires forall i :: i in less ==> i in table && key(less[i]) == key(table[i])
    ensures Unique(less, key) && IdsBelow(less, next)
  {
  }

  lemma PruneKeepsTables(db: Db, top: Ref)
    requires db.Valid()
    ensures db.Prune(top).PackagesOk() && db.Prune(top).BlobsOk() && db.Prune(top).PropsOk()
  {
    var r := db.Prune(top);
    ShrinkKeepsTable(db.packages, r.packages, PackageKey, db.nextPackage);
    ShrinkKeepsTable(db.props, r.props, PropertyKey, db.nextProp);
  }

  lemma PruneKeepsVersions(db: Db, top: Ref)
    requires db.Valid()
    ensures db.Prune(top).VersionsOk()
  {
    var r := db.Prune(top);
    ShrinkKeepsTable(db.versions, r.versions, VersionKey, db.nextVersion);
    forall i | i in r.versions
      ensures r.versions[i].package in r.packages
    {
      assert !db.Below(Ref(OfVersion, i), top);
    }
  }

  lemma PruneKeepsFiles(db: Db, top: Ref)
    requires db.Valid()
    ensures db.Prune(top).FilesOk()
  {
    var r := db.Prune(top);
    ShrinkKeepsTable(db.files, r.files, FileKey, db.nextFile);
    forall i | i in r.files
      ensures r.files[i].version in r.versions && r.files[i].blob in r.blobs
    {
      assert !db.Below(Ref(OfFile, i), top);
    }
  }

  lemma PruneKeepsValid(db: Db, top: Ref)
    requires db.Valid()
    ensures db.Prune(top).Valid()
  {
    PruneKeepsTables(db, top);
    PruneKeepsVersions(db, top);
    PruneKeepsFiles(db, top);
  }

  lemma RelabelKeepsValid(db: Db, op: Op)
    requires db.Valid() && op.SetPackageCreatedVia?
    ensures Do(db, op).0.Valid()
  {
    if op.id in db.packages {
      var packages := db.packages[op.id := db.packages[op.id].(via := op.via)];
      ShrinkKeepsTable(db.packages, packages, PackageKey, db.nextPackage);
      assert db.(packages := packages).VersionsOk();
    }
  }

  lemma DoKeepsValid(db: Db, op: Op)
    requires db.Valid()
    ensures Do(db, op).0.Valid()
  {
    match op
    case GetOrCreatePackage(p) => AddPackageKeepsValid(db, p);
    case CreateVersion(v) => AddVersionKeepsValid(db, v);
    case GetOrCreateBlob(b) => AddBlobKeepsValid(db, b);
    case CreateFile(f) => AddFileKeepsValid(db, f);
    case SetProperty(ref, name, value) => PutPropertyKeepsValid(db, ref, name, value);
    case DeleteProperty(_, _) =>
    case DeleteFile(_) =>
    case DeleteVersion(id) => PruneKeepsValid(db, Ref(OfVersion, id));
    case DeletePackage(id) => PruneKeepsValid(db, Ref(OfPackage, id));
    case SetPackageCreatedVia(_, _) => RelabelKeepsValid(db, op);
  }

  // ---- runs ----

  ghost function Final(tenants: set<int>, ops: seq<Op>): Db {
    if ops == [] then Empty(tenants) else Do(Final(tenants, ops[..|ops| - 1]), ops[|ops| - 1]).0
  }

  // Every reachable database meets the schema and holds at most one value per property name.
  lemma {:induction false} EveryReachableDbIsValid(tenants: set<int>, ops: seq<Op>)
    ensures Final(tenants, ops).Valid()
  {
    if ops != [] {
      EveryReachableDbIsValid(tenants, ops[..|ops| - 1]);
      DoKeepsValid(Final(tenants, ops[..|ops| - 1]), ops[|ops| - 1]);
    }
  }

  // ---- deletions ----

  // The SQL statements of the deletions, with the cascades of the schema.
  function DropProps(db: Db, pick: Ref -> bool): Db {
    db.(props := map i | i in db.props && !pick(db.props[i].ref) :: db.props[i])
  }

  function OfFilesWhere(db: Db, pick: File -> bool): Ref -> bool {
    (r: Ref) => r.level == OfFile && r.id in db.files && pick(db.files[r.id])
  }

  function DropVersionRow(db: Db, id: nat): Db {
    db.(versions := db.versions - {id},
        files := map i | i in db.files && db.files[i].version != id :: db.files[i])
  }

  function DropPackageRow(db: Db, id: nat): Db {
    var gone := set v | v in db.versions && db.versions[v].package == id;
    db.(packages := db.packages - {id},
        versions := db.versions - gone,
        files := map i | i in db.files && db.files[i].version !in gone :: db.files[i])
  }

  function FilesOfVersion(db: Db, id: nat): Ref -> bool {
    OfFilesWhere(db, (f: File) => f.version == id)
  }

  function FilesOfPackage(db: Db, id: nat): Ref -> bool {
    OfFilesWhere(db, (f: File) => f.version in db.versions && db.versions[f.version].package == id)
  }

  function VersionsOfPackage(db: Db, id: nat): Ref -> bool {
    (r: Ref) => r.level == OfVersion && r.id in db.versions && db.versions[r.id].package == id
  }

  lemma BelowVersion(db: Db, id: nat, r: Ref)
    ensures db.Below(r, Ref(OfVersion, id)) <==> r == Ref(OfVersion, id) || FilesOfVersion(db, id)(r)
  {
    if r.level == OfFile && r.id in db.files {
      var v := Ref(OfVersion, db.files[r.id].version);
      assert db.Parent(r) == Some(v);
      assert db.Below(v, Ref(OfVersion, id)) <==> v == Ref(OfVersion, id);
    }
  }

  lemma BelowPackage(db: Db, id: nat, r: Ref)
    ensures db.Below(r, Ref(OfPackage, id))
       <==> r == Ref(OfPackage, id) || VersionsOfPackage(db, id)(r) || FilesOfPackage(db, id)(r)
  {
    var top := Ref(OfPackage, id);
    if r.level == OfVersion {
      VersionBelowPackage(db, id, r.id);
    } else if r.level == OfFile && r.id in db.files {
      var v := db.files[r.id].version;
      assert db.Parent(r) == Some(Ref(OfVersion, v));
      VersionBelowPackage(db, id, v);
    }
  }

  lemma VersionBelowPackage(db: Db, id: nat, v: nat)
    ensures db.Below(Ref(OfVersion, v), Ref(OfPackage, id)) <==> v in db.versions && db.versions[v].package == id
  {
    if v in db.versions {
      var p := Ref(OfPackage, db.versions[v].package);
      assert db.Parent(Ref(OfVersion, v)) == Some(p);
      assert db.Below(p, Ref(OfPackage, id)) <==> p == Ref(OfPackage, id);
    }
  }

  lemma DropPropsTwice(db: Db, p: Ref -> bool, q: Ref -> bool)
    ensures DropProps(DropProps(db, p), q) == DropProps(db, (r: Ref) => p(r) || q(r))
  {
    assert DropProps(DropProps(db, p), q).props == DropProps(db, (r: Ref) => p(r) || q(r)).props;
  }

  lemma DropPropsBelow(db: Db, pick: Ref -> bool, top: Ref)
    requires forall r :: pick(r) <==> db.Below(r, top)
    ensures DropProps(db, pick).props == db.Prune(top).props
  {
  }

  lemma DropVersionRowIs(db: Db, id: nat)
    ensures DropVersionRow(db, id).versions == db.Prune(Ref(OfVersion, id)).versions
    ensures DropVersionRow(db, id).files == db.Prune(Ref(OfVersion, id)).files
    ensures db.packages == db.Prune(Ref(OfVersion, id)).packages
  {
    var want := db.Prune(Ref(OfVersion, id));
    forall i
      ensures db.Below(Ref(OfFile, i), Ref(OfVersion, id)) <==> i in db.files && db.files[i].version == id
    {
      BelowVersion(db, id, Ref(OfFile, i));
    }
    assert DropVersionRow(db, id).files == want.files;
    forall i
      ensures db.Below(Ref(OfVersion, i), Ref(OfVersion, id)) <==> i == id
    {
      BelowVersion(db, id, Ref(OfVersion, i));
    }
    assert db.versions - {id} == want.versions;
    assert db.packages == want.packages;
  }

  // The statements of DeleteVersion remove exactly the version, its files and the properties of both.
  lemma DeleteVersionRemovesItsTree(db: Db, id: nat)
    ensures var d1 := DropProps(db, FilesOfVersion(db, id));
      var d2 := DropProps(d1, (r: Ref) => r == Ref(OfVersion, id));
      DropVersionRow(d2, id) == db.Prune(Ref(OfVersion, id))
  {
    var own := (r: Ref) => r == Ref(OfVersion, id);
    var pick := (r: Ref) => FilesOfVersion(db, id)(r) || own(r);
    forall r
      ensures pick(r) <==> db.Below(r, Ref(OfVersion, id))
    {
      BelowVersion(db, id, r);
    }
    DropPropsTwice(db, FilesOfVersion(db, id), own);
    DropPropsBelow(db, pick, Ref(OfVersion, id));
    DropVersionRowIs(db, id);
  }

  lemma DropPackageRowIs(db: Db, id: nat)
    requires db.FilesOk()
    ensures DropPackageRow(db, id).packages == db.Prune(Ref(OfPackage, id)).packages
    ensures DropPackageRow(db, id).versions == db.Prune(Ref(OfPackage, id)).versions
    ensures DropPackageRow(db, id).files == db.Prune(Ref(OfPackage, id)).files
  {
    var want := db.Prune(Ref(OfPackage, id));
    forall i
      ensures db.Below(Ref(OfVersion, i), Ref(OfPackage, id)) <==> i in db.versions && db.versions[i].package == id
    {
      VersionBelowPackage(db, id, i);
    }
    forall i | i in db.files
      ensures db.Below(Ref(OfFile, i), Ref(OfPackage, id)) <==> db.versions[db.files[i].version].package == id
    {
      BelowPackage(db, id, Ref(OfFile, i));
    }
    assert forall i :: db.Below(Ref(OfPackage, i), Ref(OfPackage, id)) <==> i == id;
    assert DropPackageRow(db, id).packages == want.packages;
    assert DropPackageRow(db, id).versions == want.versions;
    assert DropPackageRow(db, id).files == want.files;
  }

  // The statements of DeletePackage remove exactly the package, its versions, their files and the
  // properties of all three.
  lemma DeletePackageRemovesItsTree(db: Db, id: nat)
    requires db.FilesOk()
    ensures var d1 := DropProps(db, FilesOfPackage(db, id));
      var d2 := DropProps(d1, VersionsOfPackage(d1, id));
      var d3 := DropProps(d2, (r: Ref) => r == Ref(OfPackage, id));
      DropPackageRow(d3, id) == db.Prune(Ref(OfPackage, id))
  {
    var own := (r: Ref) => r == Ref(OfPackage, id);
    var two := (r: Ref) => FilesOfPackage(db, id)(r) || VersionsOfPackage(db, id)(r);
    var pick := (r: Ref) => two(r) || own(r);
    forall r
      ensures pick(r) <==> db.Below(r, Ref(OfPackage, id))
    {
      BelowPackage(db, id, r);
    }
    DropPropsTwice(db, FilesOfPackage(db, id), VersionsOfPackage(db, id));
    DropPropsTwice(db, two, own);
    DropPropsBelow(db, pick, Ref(OfPackage, id));
    DropPackageRowIs(db, id);
    VersionsOfPackageIs(db, DropProps(db, FilesOfPackage(db, id)), id);
  }

  lemma VersionsOfPackageIs(db: Db, d: Db, id: nat)
    requires d.versions == db.versions
    ensures forall r :: VersionsOfPackage(d, id)(r) == VersionsOfPackage(db, id)(r)
    ensures forall e: Db :: DropProps(e, VersionsOfPackage(d, id)) == DropProps(e, VersionsOfPackage(db, id))
  {
    forall e: Db
      ensures DropProps(e, VersionsOfPackage(d, id)) == DropProps(e, VersionsOfPackage(db, id))
    {
      assert DropProps(e, VersionsOfPackage(d, id)).props == DropProps(e, VersionsOfPackage(db, id)).props;
    }
  }

  // ---- the calls column by column ----

  // A package is looked up by tenant, type and lookup name, and created once.
  lemma PackageAnswers(db: Db, p: Package)
    requires db.Valid()
    ensures var (later, r) := Do(db, GetOrCreatePackage(p));
      var found := exists i :: i in db.packages && db.packages[i].lowerName == p.lowerName
                     && db.packages[i].tenant == p.tenant && db.packages[i].typ == p.typ;
      if found then
        && later == db && r.Ok? && r.value in db.packages && db.packages[r.value].lowerName == p.lowerName
        && db.packages[r.value].tenant == p.tenant && db.packages[r.value].typ == p.typ
      else if p.tenant !in db.tenants then later == db && r == Err(ConstraintFailed)
      else
        var row := Package(p.tenant, p.typ, p.name, p.lowerName, p.created, if p.via.Other? then Uploaded else p.via);
        && r == Ok(db.nextPackage) && db.nextPackage !in db.packages
        && later == db.(packages := db.packages[db.nextPackage := row], nextPackage := db.nextPackage + 1)
  {
    var hit := Find(db.packages, PackageKey, PackageKey(p));
    if hit.None? {
      assert forall i :: i in db.packages && db.packages[i].lowerName == p.lowerName ==>
        PackageKey(db.packages[i]) != PackageKey(p);
    } else {
      assert db.packages[hit.value].lowerName == p.lowerName;
    }
  }

  // A version is refused if the package has one of that lower-cased name, or if there is no such package.
  lemma VersionAnswers(db: Db, v: Version)
    requires db.Valid()
    ensures var (later, r) := Do(db, CreateVersion(v));
      var taken := exists i :: i in db.versions && db.versions[i].lowerVersion == v.lowerVersion
                     && db.versions[i].package == v.package;
      if taken then later == db && r == Err(DuplicateVersion)
      else if v.package !in db.packages then later == db && r == Err(ConstraintFailed)
      else
        var metadata := if v.metadata == "" then "{}" else v.metadata;
        var row := Version(v.package, v.version, v.lowerVersion, metadata, v.created);
        && r == Ok(db.nextVersion) && db.nextVersion !in db.versions
        && later == db.(versions := db.versions[db.nextVersion := row], nextVersion := db.nextVersion + 1)
  {
    var hit := Find(db.versions, VersionKey, VersionKey(v));
    if hit.None? {
      assert forall i :: i in db.versions && db.versions[i].lowerVersion == v.lowerVersion ==>
        VersionKey(db.versions[i]) != VersionKey(v);
    } else {
      assert db.versions[hit.value].lowerVersion == v.lowerVersion;
    }
  }

  // Blobs of one sha256 share a row.
  lemma BlobAnswers(db: Db, b: Blob)
    requires db.Valid()
    ensures var (later, r) := Do(db, GetOrCreateBlob(b));
      if exists i :: i in db.blobs && db.blobs[i].sha256 == b.sha256 then
        later == db && r.Ok? && r.value in db.blobs && db.blobs[r.value].sha256 == b.sha256
      else
        && r == Ok(db.nextBlob) && db.nextBlob !in db.blobs
        && later == db.(blobs := db.blobs[db.nextBlob := b], nextBlob := db.nextBlob + 1)
  {
    var hit := Find(db.blobs, BlobKey, b.sha256);
    if hit.None? {
      assert forall i :: i in db.blobs ==> BlobKey(db.blobs[i]) != b.sha256;
    } else {
      assert db.blobs[hit.value].sha256 == b.sha256;
    }
  }

  // A file is refused if the version has one of that lower-cased name, or without its version or blob.
  lemma FileAnswers(db: Db, f: File)
    requires db.Valid()
    ensures var (later, r) := Do(db, CreateFile(f));
      var taken := exists i :: i in db.files && db.files[i].lowerName == f.lowerName
                     && db.files[i].version == f.version;
      if taken then later == db && r == Err(DuplicateFile)
      else if f.version !in db.versions || f.blob !in db.blobs then later == db && r == Err(ConstraintFailed)
      else
        && r == Ok(db.nextFile) && db.nextFile !in db.files
        && later == db.(files := db.files[db.nextFile := f], nextFile := db.nextFile + 1)
  {
    var hit := Find(db.files, FileKey, FileKey(f));
    if hit.None? {
      assert forall i :: i in db.files && db.files[i].lowerName == f.lowerName ==>
        FileKey(db.files[i]) != FileKey(f);
    } else {
      assert db.files[hit.value].lowerName == f.lowerName;
    }
  }

  // Relabelling changes one package's label and nothing else.
  lemma RelabelAnswers(db: Db, id: nat, via: CreatedVia)
    ensures var (later, r) := Do(db, SetPackageCreatedVia(id, via));
      if id !in db.packages then later == db && r == Err(NotExist)
      else
        && r.Ok? && later == db.(packages := later.packages) && later.packages.Keys == db.packages.Keys
        && later.packages[id] == db.packages[id].(via := via)
        && forall i :: i in db.packages && i != id ==> later.packages[i] == db.packages[i]
  {
  }

  // Rows of `less` are those of `table` that `stays` holds of.
  ghost predicate Survive<R>(table: map<nat, R>, less: map<nat, R>, stays: nat -> bool) {
    forall i :: (i in less <==> i in table && stays(i)) && (i in less ==> less[i] == table[i])
  }

  // Which rows each deletion leaves.
  lemma FileDeletionLeaves(db: Db, id: nat)
    ensures var later := Do(db, DeleteFile(id)).0;
      && later == db.(files := later.files)
      && Survive(db.files, later.files, i => i != id)
  {
  }

  lemma VersionDeletionLeaves(db: Db, id: nat)
    ensures var later := Do(db, DeleteVersion(id)).0;
      && later == db.(versions := later.versions, files := later.files, props := later.props)
      && Survive(db.versions, later.versions, i => i != id)
      && Survive(db.files, later.files, i => i in db.files && db.files[i].version != id)
  {
    DropVersionRowIs(db, id);
    assert Survive(db.versions, DropVersionRow(db, id).versions, i => i != id);
  }

  lemma PackageDeletionLeaves(db: Db, id: nat)
    requires db.Valid()
    ensures var later := Do(db, DeletePackage(id)).0;
      && later == db.(packages := later.packages, versions := later.versions, files := later.files,
                      props := later.props)
      && Survive(db.packages, later.packages, i => i != id)
      && Survive(db.versions, later.versions, i => i in db.versions && db.versions[i].package != id)
      && Survive(db.files, later.files, i => i in db.files && db.versions[db.files[i].version].package != id)
  {
    DropPackageRowIs(db, id);
    DropPackageRowLeaves(db, id);
  }

  lemma DropPackageRowLeaves(db: Db, id: nat)
    requires db.FilesOk()
    ensures var later := DropPackageRow(db, id);
      && Survive(db.packages, later.packages, i => i != id)
      && Survive(db.versions, later.versions, i => i in db.versions && db.versions[i].package != id)
      && Survive(db.files, later.files, i => i in db.files && db.versions[db.files[i].version].package != id)
  {
  }

  // ---- properties over runs ----

  // What the call makes of (ref, name): a new value, none, or no change.
  datatype Effect = Sets(value: string) | Clears | Leaves

  function EffectOn(db: Db, op: Op, ref: Ref, name: string): Effect {
    match op
    case SetProperty(r, n, value) => if (r, n) == (ref, name) then Sets(value) else Leaves
    case DeleteProperty(r, n) => if (r, n) == (ref, name) then Clears else Leaves
    case DeleteVersion(id) => if db.Below(ref, Ref(OfVersion, id)) then Clears else Leaves
    case DeletePackage(id) => if db.Below(ref, Ref(OfPackage, id)) then Clears else Leaves
    case _ => Leaves
  }

  lemma ShrinkFinds<R, K(!new)>(table: map<nat, R>, less: map<nat, R>, key: R -> K, k: K, keep: bool)
    requires Unique(table, key)
    requires forall i :: i in less ==> i in table && less[i] == table[i]
    requires forall i :: i in table && key(table[i]) == k ==> (i in less <==> keep)
    ensures Find(less, key, k) == if keep then Find(table, key, k) else None
  {
    if exists i :: i in table && key(table[i]) == k && keep {
      var i :| i in table && key(table[i]) == k;
      FindIs(table, key, i);
      assert Unique(less, key);
      FindIs(less, key, i);
    }
  }

  lemma PutPropertySets(db: Db, ref: Ref, name: string, value: string, r: Ref, n: string)
    requires db.Valid()
    ensures PutProperty(db, ref, name, value).Property(r, n)
         == if (r, n) == (ref, name) then Some(value) else db.Property(r, n)
  {
    var d := PutProperty(db, ref, name, value);
    var without := db.WithoutProperty(ref, name);
    PutPropertyKeepsValid(db, ref, name, value);
    ShrinkFinds(db.props, without.props, PropertyKey, (r, n), (r, n) != (ref, name));
    if (r, n) == (ref, name) {
      FindIs(d.props, PropertyKey, db.nextProp);
    } else {
      match Find(without.props, PropertyKey, (r, n))
      case Some(i) => FindIs(d.props, PropertyKey, i);
      case None => assert forall i :: i in d.props ==> PropertyKey(d.props[i]) != (r, n);
    }
  }

  lemma DoActsOnProperty(db: Db, op: Op, ref: Ref, name: string)
    requires db.Valid()
    ensures Do(db, op).0.Property(ref, name)
         == match EffectOn(db, op, ref, name)
            case Sets(value) => Some(value)
            case Clears => None
            case Leaves => db.Property(ref, name)
  {
    match op
    case SetProperty(r, n, value) => PutPropertySets(db, r, n, value, ref, name);
    case DeleteProperty(r, n) =>
      ShrinkFinds(db.props, db.WithoutProperty(r, n).props, PropertyKey, (ref, name), (r, n) != (ref, name));
    case DeleteVersion(id) => PruneActsOnProperty(db, Ref(OfVersion, id), ref, name);
    case DeletePackage(id) => PruneActsOnProperty(db, Ref(OfPackage, id), ref, name);
    case _ => assert Do(db, op).0.props == db.props;
  }

  lemma PruneActsOnProperty(db: Db, top: Ref, ref: Ref, name: string)
    requires db.Valid()
    ensures db.Prune(top).Property(ref, name) == if db.Below(ref, top) then None else db.Property(ref, name)
  {
    ShrinkFinds(db.props, db.Prune(top).props, PropertyKey, (ref, name), !db.Below(ref, top));
  }

  // The call of the run that last set (ref, name), unless it was cleared since.
  ghost function LastSet(tenants: set<int>, ops: seq<Op>, ref: Ref, name: string): Option<nat> {
    if ops == [] then None
    else
      var n := |ops| - 1;
      match EffectOn(Final(tenants, ops[..n]), ops[n], ref, name)
      case Sets(_) => Some(n)
      case Clears => None
      case Leaves => LastSet(tenants, ops[..n], ref, name)
  }

  // Reading a property gives the value last set, unless it or its row's tree was deleted since.
  lemma {:induction false} PropertyIsTheLastOneSet(tenants: set<int>, ops: seq<Op>, ref: Ref, name: string)
    ensures match LastSet(tenants, ops, ref, name)
            case None => Final(tenants, ops).Property(ref, name) == None
            case Some(i) =>
              && i < |ops| && ops[i].SetProperty? && ops[i].ref == ref && ops[i].name == name
              && Final(tenants, ops).Property(ref, name) == Some(ops[i].value)
  {
    if ops != [] {
      var n := |ops| - 1;
      PropertyIsTheLastOneSet(tenants, ops[..n], ref, name);
      EveryReachableDbIsValid(tenants, ops[..n]);
      DoActsOnProperty(Final(tenants, ops[..n]), ops[n], ref, name);
    }
  }

  // Ids are never handed out twice.
  lemma DeadStaysDead(db: Db, op: Op, ref: Ref)
    requires db.Valid() && db.Allocated(ref)
    ensures Do(db, op).0.Allocated(ref)
    ensures !db.Live(ref) ==> !Do(db, op).0.Live(ref)
  {
  }

  lemma AllocatedNext(tenants: set<int>, ops: seq<Op>, ref: Ref)
    requires ops != [] && Final(tenants, ops[..|ops| - 1]).Allocated(ref)
    ensures Final(tenants, ops).Allocated(ref)
  {
    EveryReachableDbIsValid(tenants, ops[..|ops| - 1]);
    DeadStaysDead(Final(tenants, ops[..|ops| - 1]), ops[|ops| - 1], ref);
  }

  lemma {:induction false} AllocatedStays(tenants: set<int>, ops: seq<Op>, i: nat, ref: Ref)
    requires i <= |ops| && Final(tenants, ops[..i]).Allocated(ref)
    ensures Final(tenants, ops).Allocated(ref)
  {
    var n := |ops|;
    if i == n {
      assert ops[..n] == ops;
    } else {
      var before := ops[..n - 1];
      assert before[..i] == ops[..i];
      AllocatedStays(tenants, before, i, ref);
      AllocatedNext(tenants, ops, ref);
    }
  }

  // A row whose id was handed out by call i and which is live at the end was live from then on.
  lemma {:induction false} LiveEverSince(tenants: set<int>, ops: seq<Op>, i: nat, j: nat, ref: Ref)
    requires i <= j <= |ops| && Final(tenants, ops[..i]).Allocated(ref) && Final(tenants, ops).Live(ref)
    ensures Final(tenants, ops[..j]).Live(ref)
  {
    var n := |ops|;
    if j == n {
      assert ops[..n] == ops;
    } else {
      var before := ops[..n - 1];
      assert before[..i] == ops[..i] && before[..j] == ops[..j];
      AllocatedStays(tenants, before, i, ref);
      EveryReachableDbIsValid(tenants, before);
      DeadStaysDead(Final(tenants, before), ops[n - 1], ref);
      LiveEverSince(tenants, before, i, j, ref);
    }
  }

  // A live row shows a property only from a call that set it. That call found the row live, and the
  // row has been live ever since, exactly when the call named an id that had been handed out.
  lemma LiveRowsShowTheirOwnProperties(tenants: set<int>, ops: seq<Op>, ref: Ref, name: string) returns (i: nat)
    requires Final(tenants, ops).Live(ref) && Final(tenants, ops).Property(ref, name).Some?
    ensures i < |ops| && ops[i] == SetProperty(ref, name, Final(tenants, ops).Property(ref, name).value)
    ensures (forall j :: i <= j <= |ops| ==> Final(tenants, ops[..j]).Live(ref))
       <==> Final(tenants, ops[..i]).Allocated(ref)
  {
    PropertyIsTheLastOneSet(tenants, ops, ref, name);
    i := LastSet(tenants, ops, ref, name).value;
    var at := ops[..i];
    EveryReachableDbIsValid(tenants, at);
    if Final(tenants, at).Allocated(ref) {
      forall j | i <= j <= |ops|
        ensures Final(tenants, ops[..j]).Live(ref)
      {
        LiveEverSince(tenants, ops, i, j, ref);
      }
    } else {
      assert !Final(tenants, ops[..i]).Live(ref);
    }
  }

  // A property set on the id that the next package will get shows on that package.
  lemma APropertyCanPredateItsRow(tenants: set<int>, p: Package, name: string, value: string) returns (ops: seq<Op>)
    requires p.tenant in tenants
    ensures |ops| == 2 && ops[0] == SetProperty(Ref(OfPackage, 1), name, value) && ops[1] == GetOrCreatePackage(p)
    ensures !Final(tenants, ops[..1]).Live(Ref(OfPackage, 1)) && Final(tenants, ops).Live(Ref(OfPackage, 1))
    ensures Final(tenants, ops).Property(Ref(OfPackage, 1), name) == Some(value)
  {
    var set1, add := SetProperty(Ref(OfPackage, 1), name, value), GetOrCreatePackage(p);
    ops := [set1, add];
    assert ops[..1] == [set1] && [set1][..0] == [];
    EveryReachableDbIsValid(tenants, []);
    EveryReachableDbIsValid(tenants, ops[..1]);
    DoActsOnProperty(Empty(tenants), set1, Ref(OfPackage, 1), name);
    DoActsOnProperty(Final(tenants, ops[..1]), add, Ref(OfPackage, 1), name);
  }

  // ---- the store as it runs ----

  class Store {
    var DB: Db

    constructor (tenants: set<int>)
      ensures DB == Empty(tenants)
    {
      DB := Empty(tenants);
    }

    method GetPackageByLookup(tenant: int, typ: string, lookup: string) returns (r: Option<nat>)
      requires DB.Valid()
      ensures r == Find(DB.packages, PackageKey, (tenant, typ, lookup))
    {
      r := Select(DB.packages, PackageKey, (tenant, typ, lookup));
    }

    method GetOrCreatePackageWithLookup(p: Package) returns (r: Reply)
      requires DB.Valid()
      modifies this
      ensures (DB, r) == Do(old(DB), GetOrCreatePackage(p)) && DB.Valid()
    {
      AddPackageKeepsValid(DB, p);
      var found := GetPackageByLookup(p.tenant, p.typ, p.lowerName);
      if found.Some? { return Ok(found.value); }
      if p.tenant !in DB.tenants { return Err(ConstraintFailed); }
      var row := p;
      if !row.via.Valid() { row := row.(via := Uploaded); }
      var id := DB.nextPackage;
      DB := DB.(packages := DB.packages[id := row], nextPackage := id + 1);
      return Ok(id);
    }

    method CreateVersion(v: Version) returns (r: Reply)
      requires DB.Valid()
      modifies this
      ensures (DB, r) == Do(old(DB), Op.CreateVersion(v)) && DB.Valid()
    {
      AddVersionKeepsValid(DB, v);
      var row := v;
      if row.metadata == "" { row := row.(metadata := "{}"); }
      var dup := Select(DB.versions, VersionKey, VersionKey(row));
      if dup.Some? { return Err(DuplicateVersion); }
      if row.package !in DB.packages { return Err(ConstraintFailed); }
      var id := DB.nextVersion;
      DB := DB.(versions := DB.versions[id := row], nextVersion := id + 1);
      return Ok(id);
    }

    method GetVersion(package: nat, lowerVersion: string) returns (r: Option<nat>)
      requires DB.Valid()
      ensures r == Find(DB.versions, VersionKey, (package, lowerVersion))
    {
      r := Select(DB.versions, VersionKey, (package, lowerVersion));
    }

    method GetOrCreateBlob(b: Blob) returns (r: Reply)
      requires DB.Valid()
      modifies this
      ensures (DB, r) == Do(old(DB), Op.GetOrCreateBlob(b)) && DB.Valid()
    {
      AddBlobKeepsValid(DB, b);
      var found := Select(DB.blobs, BlobKey, b.sha256);
      if found.Some? { return Ok(found.value); }
      var id := DB.nextBlob;
      DB := DB.(blobs := DB.blobs[id := b], nextBlob := id + 1);
      return Ok(id);
    }

    method CreateFile(f: File) returns (r: Reply)
      requires DB.Valid()
      modifies this
      ensures (DB, r) == Do(old(DB), Op.CreateFile(f)) && DB.Valid()
    {
      AddFileKeepsValid(DB, f);
      var dup := Select(DB.files, FileKey, FileKey(f));
      if dup.Some? { return Err(DuplicateFile); }
      if f.version !in DB.versions || f.blob !in DB.blobs { return Err(ConstraintFailed); }
      var id := DB.nextFile;
      DB := DB.(files := DB.files[id := f], nextFile := id + 1);
      return Ok(id);
    }

    // In the transactions below, statement number `fault` fails, counting Begin as 0 and Commit as
    // the last; the deferred rollback then leaves the database as it was.

    method SetProperty(ref: Ref, name: string, value: string, fault: nat) returns (ok: bool)
      requires DB.Valid()
      modifies this
      ensures ok <==> fault > 3
      ensures DB == (if ok then Do(old(DB), Op.SetProperty(ref, name, value)).0 else old(DB)) && DB.Valid()
    {
      PutPropertyKeepsValid(DB, ref, name, value);
      if fault == 0 { return false; }
      var tx := DB;
      if fault == 1 { return false; }
      tx := tx.WithoutProperty(ref, name);
      if fault == 2 { return false; }
      tx := tx.(props := tx.props[tx.nextProp := Property(ref, name, value)], nextProp := tx.nextProp + 1);
      if fault == 3 { return false; }
      DB := tx;
      return true;
    }

    method GetProperty(ref: Ref, name: string) returns (r: Option<string>)
      requires DB.Valid()
      ensures r == DB.Property(ref, name)
    {
      var row := Select(DB.props, PropertyKey, (ref, name));
      r := match row case None => None case Some(i) => Some(DB.props[i].value);
    }

    method DeleteProperty(ref: Ref, name: string)
      requires DB.Valid()
      modifies this
      ensures DB == Do(old(DB), Op.DeleteProperty(ref, name)).0 && DB.Valid()
    {
      DoKeepsValid(DB, Op.DeleteProperty(ref, name));
      DB := DB.WithoutProperty(ref, name);
    }

    method DeleteFile(id: nat)
      requires DB.Valid()
      modifies this
      ensures DB == Do(old(DB), Op.DeleteFile(id)).0 && DB.Valid()
    {
      DoKeepsValid(DB, Op.DeleteFile(id));
      DB := DB.(files := DB.files - {id});
    }

    method DeleteVersion(id: nat, fault: nat) returns (ok: bool)
      requires DB.Valid()
      modifies this
      ensures ok <==> fault > 4
      ensures DB == (if ok then old(DB).Prune(Ref(OfVersion, id)) else old(DB)) && DB.Valid()
    {
      PruneKeepsValid(DB, Ref(OfVersion, id));
      DeleteVersionRemovesItsTree(DB, id);
      if fault == 0 { return false; }
      var tx := DB;
      if fault == 1 { return false; }
      tx := DropProps(tx, FilesOfVersion(tx, id));
      if fault == 2 { return false; }
      tx := DropProps(tx, (r: Ref) => r == Ref(OfVersion, id));
      if fault == 3 { return false; }
      tx := DropVersionRow(tx, id);
      if fault == 4 { return false; }
      DB := tx;
      return true;
    }

    method DeletePackage(id: nat, fault: nat) returns (ok: bool)
      requires DB.Valid()
      modifies this
      ensures ok <==> fault > 5
      ensures DB == (if ok then old(DB).Prune(Ref(OfPackage, id)) else old(DB)) && DB.Valid()
    {
      PruneKeepsValid(DB, Ref(OfPackage, id));
      DeletePackageRemovesItsTree(DB, id);
      if fault == 0 { return false; }
      var tx := DB;
      if fault == 1 { return false; }
      tx := DropProps(tx, FilesOfPackage(tx, id));
      if fault == 2 { return false; }
      tx := DropProps(tx, VersionsOfPackage(tx, id));
      if fault == 3 { return false; }
      tx := DropProps(tx, (r: Ref) => r == Ref(OfPackage, id));
      if fault == 4 { return false; }
      tx := DropPackageRow(tx, id);
      if fault == 5 { return false; }
      DB := tx;
      return true;
    }

    method SetPackageCreatedVia(id: nat, via: CreatedVia) returns (r: Reply)
      requires DB.Valid()
      modifies this
      ensures (DB, r) == Do(old(DB), Op.SetPackageCreatedVia(id, via)) && DB.Valid()
    {
      DoKeepsValid(DB, Op.SetPackageCreatedVia(id, via));
      if id !in DB.packages { return Err(NotExist); }
      DB := DB.(packages := DB.packages[id := DB.packages[id].(via := via)]);
      return Ok(0);
    }
  }
}
