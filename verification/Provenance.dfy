// Package provenance under uploads, upstream pull-through and deletion of PyPI packages and Go modules.
//
// `Serve` is one whole request; in `Traffic` the lookups and ingests of many requests overlap. Admins do
// not relabel packages. `origin` records by which kind of request each file row was added; the program
// does not store it.
module Provenance {
  import opened Wrappers
  import opened Models
  import opened Ingest
  import SimpleIndex

  type Name = s: string | s != "" witness "a"

  datatype Site = Site(w: World, origin: map<nat, CreatedVia>)

  // `lookup` is the normalised name of a valid PyPI project. `lookupFails` says that the handler's own
  // lookup before the ingest fails for another reason than a missing row: an upload's gate, or the
  // test of a Go pull-through whether the version is there.
  datatype Request =
    | PyPIUpload(tenant: int, name: string, lookup: Name, version: string, props: seq<(string, string)>,
                 filename: string, content: Bytes, now: int, lookupFails: bool, budget: nat)
    | PyPIPull(tenant: int, lookup: Name, version: string, filename: string, content: Bytes, now: int, budget: nat)
    | GoUpload(tenant: int, name: string, version: string, goMod: string, content: Bytes, now: int, lookupFails: bool,
               budget: nat)
    | GoPull(tenant: int, name: string, version: string, goMod: string, content: Bytes, now: int, lookupFails: bool,
             budget: nat)
    | DeleteRow(target: Ref)
  {
    predicate Upload() { PyPIUpload? || GoUpload? }
    predicate Pull() { PyPIPull? || GoPull? }
  }

  // What the handlers hand to the ingest service.
  function InfoOf(q: Request): Info
    requires !q.DeleteRow?
  {
    match q
    case PyPIUpload(tenant, name, lookup, version, props, filename, _, now, _, _) =>
      Info(tenant, "pypi", name, lookup, version, props, "", filename, true, Uploaded, now)
    case PyPIPull(tenant, lookup, version, filename, _, now, _) =>
      Info(tenant, "pypi", lookup, lookup, version, [], "", filename, true, PullThrough, now)
    case GoUpload(tenant, name, version, goMod, _, now, _, _) =>
      Info(tenant, "go", name, "", version, [("go.mod", goMod)], "", version + ".zip", true, Uploaded, now)
    case GoPull(tenant, name, version, goMod, _, now, _, _) =>
      Info(tenant, "go", name, "", version, [("go.mod", goMod)], "", version + ".zip", true, PullThrough, now)
  }

  function ModeOf(q: Request): Mode {
    if q.GoUpload? then MustBeNew else MayExist
  }

  // The row of the package the request names, if it exists.
  ghost function Target(s: Site, env: Env, q: Request): Option<nat>
    requires !q.DeleteRow?
  {
    Find(s.w.db.packages, PackageKey, PackageKey(PackageRow(env, InfoOf(q))))
  }

  // The upload handlers' provenance gate: it refuses a mirrored package it can see.
  ghost predicate Refused(s: Site, env: Env, q: Request) {
    q.Upload() && !q.lookupFails && Target(s, env, q).Some?
    && s.w.db.packages[Target(s, env, q).value].via == PullThrough
  }

  // Go pull-through fetches nothing when it finds the version there.
  ghost predicate AlreadyThere(s: Site, env: Env, q: Request) {
    q.GoPull? && !q.lookupFails && VersionThere(s, env, q)
  }

  ghost predicate VersionThere(s: Site, env: Env, q: Request)
    requires !q.DeleteRow?
  {
    Target(s, env, q).Some?
    && Find(s.w.db.versions, VersionKey, (Target(s, env, q).value, env.lower(InfoOf(q).version))).Some?
  }

  datatype Reaction = Added(file: nat) | NotAdded

  ghost function Serve(s: Site, env: Env, q: Request): (Site, Reaction) {
    if q.DeleteRow? then (s.(w := s.w.(db := Remove(s.w.db, q.target))), NotAdded)
    else if Refused(s, env, q) || AlreadyThere(s, env, q) then (s, NotAdded)
    else
      var (w, r) := Add(s.w, env, InfoOf(q), ModeOf(q), q.content, q.budget);
      match r
      case Ok(d) => (Site(w, s.origin[d.file := InfoOf(q).via]), Added(d.file))
      case Err(_) => (s.(w := w), NotAdded)
  }

  ghost function After(s: Site, env: Env, qs: seq<Request>): Site
    decreases |qs|
  {
    if qs == [] then s else After(Serve(s, env, qs[0]).0, env, qs[1..])
  }

  lemma ServeKeepsValid(s: Site, env: Env, q: Request)
    requires s.w.db.Valid()
    ensures Serve(s, env, q).0.w.db.Valid()
  {
    if q.DeleteRow? {
      RemoveKeepsValid(s.w.db, q.target);
    } else {
      AddKeepsValid(s.w, env, InfoOf(q), ModeOf(q), q.content, q.budget);
    }
  }

  // ---- labels are sticky ----

  lemma ServeKeepsLabels(s: Site, env: Env, q: Request, p: nat)
    requires s.w.db.Valid() && p < s.w.db.nextPackage
    ensures var db := Serve(s, env, q).0.w.db;
      && p < db.nextPackage
      && (p in db.packages ==> p in s.w.db.packages && db.packages[p] == s.w.db.packages[p])
  {
    if !q.DeleteRow? {
      AddKeepsValid(s.w, env, InfoOf(q), ModeOf(q), q.content, q.budget);
      PreparePackages(s.w.db, env, InfoOf(q), ModeOf(q), q.budget);
    }
  }

  // A package row that exists later is the row it was, with the label it was created with.
  lemma {:induction false} LabelsAreSticky(s: Site, env: Env, qs: seq<Request>, p: nat)
    requires s.w.db.Valid() && p < s.w.db.nextPackage && p in After(s, env, qs).w.db.packages
    ensures p in s.w.db.packages && After(s, env, qs).w.db.packages[p] == s.w.db.packages[p]
    decreases |qs|
  {
    if qs != [] {
      ServeKeepsValid(s, env, qs[0]);
      ServeKeepsLabels(s, env, qs[0], p);
      LabelsAreSticky(Serve(s, env, qs[0]).0, env, qs[1..], p);
    }
  }

  // ---- which files a package holds ----

  function PackageOf(db: Db, f: nat): nat
    requires f in db.files && db.files[f].version in db.versions
  {
    db.versions[db.files[f].version].package
  }

  // If f is a file under a package labelled `via`, it was added by a request of that kind.
  ghost predicate FromAt(s: Site, via: CreatedVia, f: nat)
    requires s.w.db.Valid() && f in s.w.db.files
  {
    s.w.db.packages[PackageOf(s.w.db, f)].via == via ==> f in s.origin && s.origin[f] == via
  }

  ghost predicate AllFrom(s: Site, via: CreatedVia)
    requires s.w.db.Valid()
  {
    forall f :: f in s.w.db.files ==> FromAt(s, via, f)
  }

  // The request targets an existing package labelled `via` and is of the other kind.
  ghost predicate Crosses(s: Site, env: Env, q: Request, via: CreatedVia) {
    && !q.DeleteRow? && Target(s, env, q).Some?
    && s.w.db.packages[Target(s, env, q).value].via == via && InfoOf(q).via != via
  }

  // Rows that stay keep their history.
  lemma SameFileFrom(s: Site, later: Site, via: CreatedVia, f: nat)
    requires s.w.db.Valid() && later.w.db.Valid()
    requires f in s.w.db.files && f in later.w.db.files && later.w.db.files[f] == s.w.db.files[f]
    requires var v := s.w.db.files[f].version;
      var p := s.w.db.versions[v].package;
      later.w.db.versions[v] == s.w.db.versions[v] && later.w.db.packages[p] == s.w.db.packages[p]
    requires f in s.origin ==> f in later.origin && later.origin[f] == s.origin[f]
    requires FromAt(s, via, f)
    ensures FromAt(later, via, f)
  {
  }

  lemma DeleteKeepsFrom(s: Site, env: Env, q: Request, via: CreatedVia)
    requires s.w.db.Valid() && Serve(s, env, q).0.w.db.Valid() && AllFrom(s, via) && q.DeleteRow?
    ensures AllFrom(Serve(s, env, q).0, via)
  {
    var later := Serve(s, env, q).0;
    forall f | f in later.w.db.files
      ensures FromAt(later, via, f)
    {
      assert FromAt(s, via, f);
      SameFileFrom(s, later, via, f);
    }
  }

  // A request that adds a file puts it under the package it targets, which it has created if there
  // was none.
  lemma AddedFileGoesUnderTarget(s: Site, env: Env, q: Request)
    requires s.w.db.Valid() && !q.DeleteRow? && Serve(s, env, q).1.Added?
    ensures var (later, r) := Serve(s, env, q);
      && later.w.db.Valid() && r.file in later.w.db.files && r.file == s.w.db.nextFile
      && later.w.db.files == s.w.db.files[r.file := later.w.db.files[r.file]]
      && later.origin == s.origin[r.file := InfoOf(q).via]
      && var p := PackageOf(later.w.db, r.file);
        match Target(s, env, q)
        case Some(t) => p == t && later.w.db.packages[p] == s.w.db.packages[t]
        case None => p == s.w.db.nextPackage && later.w.db.packages[p].via == InfoOf(q).via
  {
    var info := InfoOf(q);
    AddKeepsValid(s.w, env, info, ModeOf(q), q.content, q.budget);
    AddLands(s.w, env, info, ModeOf(q), q.content, q.budget);
    AddLinks(s.w, env, info, ModeOf(q), q.content, q.budget);
    AddsUnderTarget(s.w, env, info, ModeOf(q), q.content, q.budget);
  }

  lemma ServeKeepsOldRows(s: Site, env: Env, q: Request)
    requires s.w.db.Valid() && !q.DeleteRow?
    ensures var (later, r) := Serve(s, env, q);
      && later.w.db.Valid() && Grows(s.w.db, later.w.db)
      && (r.NotAdded? ==> later.w.db.files == s.w.db.files)
      && (forall f :: f in s.w.db.files && f in s.origin ==> f in later.origin && later.origin[f] == s.origin[f])
  {
    ServeKeepsValid(s, env, q);
    AddLands(s.w, env, InfoOf(q), ModeOf(q), q.content, q.budget);
  }

  lemma OldFilesKeepFrom(s: Site, env: Env, q: Request, via: CreatedVia)
    requires s.w.db.Valid() && AllFrom(s, via) && !q.DeleteRow?
    ensures var later := Serve(s, env, q).0;
      later.w.db.Valid() && forall f :: f in s.w.db.files ==> f in later.w.db.files && FromAt(later, via, f)
  {
    var later := Serve(s, env, q).0;
    ServeKeepsOldRows(s, env, q);
    forall f | f in s.w.db.files
      ensures f in later.w.db.files && FromAt(later, via, f)
    {
      assert FromAt(s, via, f);
      SameFileFrom(s, later, via, f);
    }
  }

  lemma LabelDecides(later: Site, via: CreatedVia, file: nat, own: CreatedVia, tag: CreatedVia)
    requires later.w.db.Valid() && file in later.w.db.files
    requires file in later.origin && later.origin[file] == own
    requires later.w.db.packages[PackageOf(later.w.db, file)].via == tag
    ensures FromAt(later, via, file) <==> !(tag == via && own != via)
  {
  }

  // What can be looked up before the request: it is let in and its ingest will go through.
  ghost predicate WillAdd(s: Site, env: Env, q: Request) {
    && !q.DeleteRow? && !Refused(s, env, q) && !AlreadyThere(s, env, q)
    && WillLand(s.w.db, env, InfoOf(q), ModeOf(q), q.budget)
  }

  lemma AddsIffWillAdd(s: Site, env: Env, q: Request)
    requires s.w.db.Valid()
    ensures Serve(s, env, q).1.Added? <==> WillAdd(s, env, q)
  {
    if !q.DeleteRow? {
      AddAnswers(s.w, env, InfoOf(q), ModeOf(q), q.content, q.budget);
      HasFileHasVersion(s.w.db, env, InfoOf(q));
    }
  }

  // ---- requests column by column ----

  // The package row a request names: by its tenant, its format and, for PyPI, the normalised name.
  predicate Named(db: Db, env: Env, q: Request, p: nat)
    requires !q.DeleteRow?
  {
    p in db.packages && db.packages[p].tenant == q.tenant
    && if q.PyPIUpload? || q.PyPIPull? then db.packages[p].typ == "pypi" && db.packages[p].lowerName == q.lookup
       else
         && db.packages[p].typ == "go"
         && db.packages[p].lowerName == env.lower(q.name)
  }

  predicate NamedVersion(db: Db, env: Env, q: Request, v: nat)
    requires !q.DeleteRow?
  {
    && v in db.versions && db.versions[v].lowerVersion == env.lower(q.version)
    && Named(db, env, q, db.versions[v].package)
  }

  predicate NamedFile(db: Db, env: Env, q: Request, f: nat)
    requires !q.DeleteRow?
  {
    && f in db.files && NamedVersion(db, env, q, db.files[f].version)
    && db.files[f].lowerName
       == env.lower(if q.PyPIUpload? || q.PyPIPull? then q.filename else q.version + ".zip")
  }

  lemma NamedIs(db: Db, env: Env, q: Request, p: nat)
    requires !q.DeleteRow?
    ensures Named(db, env, q, p)
       <==> p in db.packages && PackageKey(db.packages[p]) == PackageKey(PackageRow(env, InfoOf(q)))
  {
  }

  lemma NamedRowsAre(db: Db, env: Env, q: Request)
    requires !q.DeleteRow?
    ensures (exists v :: NamedVersion(db, env, q, v)) <==> HasVersion(db, env, InfoOf(q))
    ensures (exists f :: NamedFile(db, env, q, f)) <==> HasFile(db, env, InfoOf(q))
  {
    forall p: nat
      ensures Named(db, env, q, p)
         <==> p in db.packages && PackageKey(db.packages[p]) == PackageKey(PackageRow(env, InfoOf(q)))
    {
      NamedIs(db, env, q, p);
    }
    forall v: nat
      ensures NamedVersion(db, env, q, v) <==> VersionIs(db, env, InfoOf(q), v)
    {
    }
    forall f: nat
      ensures NamedFile(db, env, q, f) <==> FileIs(db, env, InfoOf(q), f)
    {
    }
  }

  lemma RefusedIs(s: Site, env: Env, q: Request)
    requires s.w.db.Valid() && !q.DeleteRow?
    ensures Refused(s, env, q) <==>
      && (q.PyPIUpload? || q.GoUpload?) && !q.lookupFails
      && exists p :: Named(s.w.db, env, q, p) && s.w.db.packages[p].via == PullThrough
  {
    forall p: nat
      ensures Named(s.w.db, env, q, p) <==> Target(s, env, q) == Some(p)
    {
      NamedIs(s.w.db, env, q, p);
      if Named(s.w.db, env, q, p) {
        FindIs(s.w.db.packages, PackageKey, p);
      }
    }
  }

  // Exactly when a request adds a file. A gate that works keeps uploads out of mirrored packages, a Go
  // pull-through does nothing if it finds the version, and then tenant, steps and free names decide.
  lemma AddsFileIff(s: Site, env: Env, q: Request)
    requires s.w.db.Valid() && !q.DeleteRow?
    ensures Serve(s, env, q).1.Added? <==>
      var db := s.w.db;
      && !((q.PyPIUpload? || q.GoUpload?) && !q.lookupFails
           && exists p :: Named(db, env, q, p) && db.packages[p].via == PullThrough)
      && !(q.GoPull? && !q.lookupFails && exists v :: NamedVersion(db, env, q, v))
      && !(q.GoUpload? && exists v :: NamedVersion(db, env, q, v))
      && !(exists f :: NamedFile(db, env, q, f))
      && q.tenant != 0 && q.tenant in db.tenants
      && q.budget >= 5 + (if q.PyPIUpload? then |q.props| else if q.PyPIPull? then 0 else 1)
  {
    AddsIffWillAdd(s, env, q);
    NamedRowsAre(s.w.db, env, q);
    RefusedIs(s, env, q);
    VersionThereIs(s, env, q);
    HasFileHasVersion(s.w.db, env, InfoOf(q));
  }

  // What a request that adds a file has written: the bytes under its filename, the module file of a Go
  // version or the properties of a PyPI upload, and, with a new package row, the label of its kind.
  lemma AddedFileIs(s: Site, env: Env, q: Request, name: string) returns (v: nat)
    requires s.w.db.Valid() && !q.DeleteRow? && Serve(s, env, q).1.Added?
    ensures var (later, r) := Serve(s, env, q);
      var kind := if q.PyPIUpload? || q.GoUpload? then Uploaded else PullThrough;
      && NamedVersion(later.w.db, env, q, v) && NamedFile(later.w.db, env, q, r.file)
      && later.w.db.files[r.file].version == v
      && Ingest.Read(later.w, r.file) == Some(q.content)
      && later.origin == s.origin[r.file := kind]
      && (PackageOf(later.w.db, r.file) !in s.w.db.packages ==>
            later.w.db.packages[PackageOf(later.w.db, r.file)].via == kind)
      && (q.GoUpload? || q.GoPull? ==> later.w.db.Property(Ref(OfVersion, v), "go.mod") == Some(q.goMod))
      && (q.PyPIUpload? && LastValue(q.props, name).Some? ==>
            later.w.db.Property(Ref(OfVersion, v), name) == LastValue(q.props, name))
  {
    var info := InfoOf(q);
    RowsOf(s.w, env, info, ModeOf(q), q.content, q.budget);
    AddLinks(s.w, env, info, ModeOf(q), q.content, q.budget);
    v := Add(s.w, env, info, ModeOf(q), q.content, q.budget).1.value.version;
    NamedIs(Serve(s, env, q).0.w.db, env, q, PackageOf(Serve(s, env, q).0.w.db, Serve(s, env, q).1.file));
    var _ := PropertiesOf(s.w, env, info, ModeOf(q), q.content, q.budget, Ref(OfVersion, v), "go.mod");
    var _ := PropertiesOf(s.w, env, info, ModeOf(q), q.content, q.budget, Ref(OfVersion, v), name);
  }

  lemma AddingKeepsFromIff(s: Site, env: Env, q: Request, via: CreatedVia)
    requires s.w.db.Valid() && AllFrom(s, via) && Serve(s, env, q).1.Added?
    ensures Serve(s, env, q).0.w.db.Valid()
    ensures AllFrom(Serve(s, env, q).0, via) <==> !Crosses(s, env, q, via)
  {
    OldFilesKeepFrom(s, env, q, via);
    AddedFileGoesUnderTarget(s, env, q);
    var later, file, own := Serve(s, env, q).0, Serve(s, env, q).1.file, InfoOf(q).via;
    LabelDecides(later, via, file, own, later.w.db.packages[PackageOf(later.w.db, file)].via);
    assert AllFrom(later, via) <==> FromAt(later, via, file);
  }

  // A request keeps it that all files under packages labelled `via` came in by such requests, except
  // exactly when it targets such a package, is of the other kind, and will add its file.
  lemma ServeKeepsFromIff(s: Site, env: Env, q: Request, via: CreatedVia)
    requires s.w.db.Valid() && AllFrom(s, via)
    ensures Serve(s, env, q).0.w.db.Valid()
    ensures AllFrom(Serve(s, env, q).0, via) <==> !(Crosses(s, env, q, via) && WillAdd(s, env, q))
  {
    ServeKeepsValid(s, env, q);
    AddsIffWillAdd(s, env, q);
    if q.DeleteRow? {
      DeleteKeepsFrom(s, env, q, via);
    } else if WillAdd(s, env, q) {
      AddingKeepsFromIff(s, env, q, via);
    } else {
      OldFilesKeepFrom(s, env, q, via);
      ServeKeepsOldRows(s, env, q);
    }
  }

  // ---- whole runs ----

  ghost predicate AlwaysFrom(s: Site, env: Env, qs: seq<Request>, via: CreatedVia)
    decreases |qs|
  {
    && s.w.db.Valid() && AllFrom(s, via)
    && (qs == [] || AlwaysFrom(Serve(s, env, qs[0]).0, env, qs[1..], via))
  }

  ghost predicate NothingCrosses(s: Site, env: Env, qs: seq<Request>, via: CreatedVia)
    decreases |qs|
  {
    qs == []
    || (!(Crosses(s, env, qs[0], via) && WillAdd(s, env, qs[0]))
        && NothingCrosses(Serve(s, env, qs[0]).0, env, qs[1..], via))
  }

  // Throughout a run all files under packages labelled `via` came in by such requests, exactly if no
  // request of the run crosses over and is let in.
  lemma {:induction false} AlwaysFromIff(s: Site, env: Env, qs: seq<Request>, via: CreatedVia)
    requires s.w.db.Valid() && AllFrom(s, via)
    ensures AlwaysFrom(s, env, qs, via) <==> NothingCrosses(s, env, qs, via)
    decreases |qs|
  {
    if qs != [] {
      ServeKeepsFromIff(s, env, qs[0], via);
      if AllFrom(Serve(s, env, qs[0]).0, via) {
        AlwaysFromIff(Serve(s, env, qs[0]).0, env, qs[1..], via);
      }
    }
  }

  // Nothing stored yet holds no file of the wrong origin.
  lemma EmptySiteIsFrom(tenants: set<int>, via: CreatedVia)
    ensures var s := Site(World(Empty(tenants), map[]), map[]); s.w.db.Valid() && AllFrom(s, via)
  {
  }

  // ---- the gate ----

  // The gate's lookup fails while the package it guards is mirrored.
  ghost predicate GateMisses(s: Site, env: Env, q: Request) {
    && q.Upload() && q.lookupFails && Target(s, env, q).Some?
    && s.w.db.packages[Target(s, env, q).value].via == PullThrough
  }

  // Uploads reach mirrored packages through a failed lookup only, and then do if they would otherwise
  // go through.
  lemma MirrorIsCrossedIff(s: Site, env: Env, q: Request)
    requires !q.DeleteRow?
    ensures Crosses(s, env, q, PullThrough) && WillAdd(s, env, q)
       <==> GateMisses(s, env, q) && WillLand(s.w.db, env, InfoOf(q), ModeOf(q), q.budget)
  {
  }

  // Pull-through reaches uploaded packages whenever it would go through: no gate stops it.
  lemma UploadedIsCrossedIff(s: Site, env: Env, q: Request)
    requires !q.DeleteRow?
    ensures Crosses(s, env, q, Uploaded) && WillAdd(s, env, q)
       <==> PullsIntoUploaded(s, env, q) && !AlreadyThere(s, env, q)
            && WillLand(s.w.db, env, InfoOf(q), ModeOf(q), q.budget)
  {
  }

  // So an upload that the gate's failed lookup lets in, or a pull-through into an uploaded package,
  // breaks the label's promise exactly if it would go through anyway. This holds for both formats.
  lemma CrossingsGoIn(s: Site, env: Env, q: Request)
    requires s.w.db.Valid() && !q.DeleteRow?
    ensures AllFrom(s, PullThrough) && GateMisses(s, env, q) ==>
      (Serve(s, env, q).0.w.db.Valid()
       && (!AllFrom(Serve(s, env, q).0, PullThrough) <==> WillLand(s.w.db, env, InfoOf(q), ModeOf(q), q.budget)))
    ensures AllFrom(s, Uploaded) && PullsIntoUploaded(s, env, q) && !AlreadyThere(s, env, q) ==>
      (Serve(s, env, q).0.w.db.Valid()
       && (!AllFrom(Serve(s, env, q).0, Uploaded) <==> WillLand(s.w.db, env, InfoOf(q), ModeOf(q), q.budget)))
  {
    if AllFrom(s, PullThrough) {
      ServeKeepsFromIff(s, env, q, PullThrough);
      MirrorIsCrossedIff(s, env, q);
    }
    if AllFrom(s, Uploaded) {
      ServeKeepsFromIff(s, env, q, Uploaded);
      UploadedIsCrossedIff(s, env, q);
    }
  }

  lemma OnlyAMissedGateCrosses(s: Site, env: Env, q: Request)
    requires Crosses(s, env, q, PullThrough) && Serve(s, env, q).1.Added?
    ensures GateMisses(s, env, q)
  {
  }

  ghost predicate NoGateMisses(s: Site, env: Env, qs: seq<Request>)
    decreases |qs|
  {
    qs == [] || (!GateMisses(s, env, qs[0]) && NoGateMisses(Serve(s, env, qs[0]).0, env, qs[1..]))
  }

  // In every run in which no gate lookup on a mirrored package fails, every file under a mirrored
  // package was pulled from upstream.
  lemma {:induction false} MirroredPackagesHoldPulledFiles(s: Site, env: Env, qs: seq<Request>)
    requires s.w.db.Valid() && AllFrom(s, PullThrough) && NoGateMisses(s, env, qs)
    ensures After(s, env, qs).w.db.Valid() && AllFrom(After(s, env, qs), PullThrough)
    decreases |qs|
  {
    if qs != [] {
      ServeKeepsFromIff(s, env, qs[0], PullThrough);
      if !qs[0].DeleteRow? {
        MirrorIsCrossedIff(s, env, qs[0]);
      }
      MirroredPackagesHoldPulledFiles(Serve(s, env, qs[0]).0, env, qs[1..]);
    }
  }

  ghost predicate PullsIntoUploaded(s: Site, env: Env, q: Request) {
    q.Pull() && Crosses(s, env, q, Uploaded)
  }

  ghost predicate NoPullsIntoUploaded(s: Site, env: Env, qs: seq<Request>)
    decreases |qs|
  {
    qs == [] || (!PullsIntoUploaded(s, env, qs[0]) && NoPullsIntoUploaded(Serve(s, env, qs[0]).0, env, qs[1..]))
  }

  // Uploaded packages hold only uploaded files as long as nobody downloads, through the mirror, a
  // version or file they lack.
  lemma {:induction false} UploadedPackagesHoldUploadedFiles(s: Site, env: Env, qs: seq<Request>)
    requires s.w.db.Valid() && AllFrom(s, Uploaded) && NoPullsIntoUploaded(s, env, qs)
    ensures After(s, env, qs).w.db.Valid() && AllFrom(After(s, env, qs), Uploaded)
    decreases |qs|
  {
    if qs != [] {
      ServeKeepsFromIff(s, env, qs[0], Uploaded);
      UploadedPackagesHoldUploadedFiles(Serve(s, env, qs[0]).0, env, qs[1..]);
    }
  }

  // ---- a stopped Go pull-through ----

  lemma VersionThereIs(s: Site, env: Env, q: Request)
    requires s.w.db.Valid() && !q.DeleteRow?
    ensures VersionThere(s, env, q) <==> HasVersion(s.w.db, env, InfoOf(q))
  {
    if Target(s, env, q).Some? {
      HasVersionIs(s.w.db, s.w.db, env, InfoOf(q), Target(s, env, q).value);
    }
  }

  // Requests for the same version of the same module.
  predicate SameVersion(q: Request, again: Request) {
    q.GoPull? && again.GoPull? && q.tenant == again.tenant && q.name == again.name && q.version == again.version
  }

  // Trying a stopped Go pull-through again, with steps enough and a lookup that works, adds the file
  // exactly if the first attempt stopped before it made the version. After that the early return
  // takes the version for complete: the retry does nothing and there is still no file.
  lemma StoppedGoPullRetriedIff(s: Site, env: Env, q: Request, again: Request)
    requires s.w.db.Valid() && SameVersion(q, again) && !VersionThere(s, env, q)
    requires Add(s.w, env, InfoOf(q), MayExist, q.content, q.budget).1 == Err(Stopped)
    requires q.tenant in s.w.db.tenants && !again.lookupFails && again.budget >= 6
    ensures var s1 := Serve(s, env, q).0;
      && s1.w.db.Valid() && s1.w.db.files == s.w.db.files
      && (Serve(s1, env, again).1.Added? <==> q.budget < 2)
      && (q.budget >= 2 ==> Serve(s1, env, again) == (s1, NotAdded))
  {
    var s1, info := Serve(s, env, q).0, InfoOf(q);
    ServeKeepsValid(s, env, q);
    AddLands(s.w, env, info, MayExist, q.content, q.budget);
    StoppedHasVersion(s.w, env, info, MayExist, q.content, q.budget);
    VersionThereIs(s, env, q);
    VersionThereIs(s1, env, again);
    SameVersionThere(s1.w.db, env, q, again);
    HasFileHasVersion(s1.w.db, env, InfoOf(again));
    AddsIffWillAdd(s1, env, again);
  }

  lemma SameVersionThere(db: Db, env: Env, q: Request, again: Request)
    requires SameVersion(q, again)
    ensures HasVersion(db, env, InfoOf(again)) <==> HasVersion(db, env, InfoOf(q))
  {
    forall v
      ensures VersionIs(db, env, InfoOf(again), v) <==> VersionIs(db, env, InfoOf(q), v)
    {
    }
  }

  // ---- requests that overlap ----

  // Requests between the lookup of their handler and their ingest. An ingest is one step.
  datatype Traffic = Traffic(site: Site, admitted: map<nat, Request>)

  datatype Event =
    | Arrive(t: nat, q: Request)   // the handler's lookup lets the request in or ends it
    | Land(t: nat)                 // its ingest
    | Drop(target: Ref)

  ghost predicate Sound(tr: Traffic) {
    tr.site.w.db.Valid() && forall t :: t in tr.admitted ==> !tr.admitted[t].DeleteRow?
  }

  predicate Happens(tr: Traffic, e: Event) {
    match e
    case Arrive(t, q) => t !in tr.admitted && !q.DeleteRow?
    case Land(t) => t in tr.admitted
    case Drop(_) => true
  }

  // A request past its handler's lookup.
  function LetIn(q: Request): Request {
    if q.PyPIPull? || q.DeleteRow? then q else q.(lookupFails := true)
  }

  ghost function Happen(tr: Traffic, env: Env, e: Event): Traffic
    requires Happens(tr, e)
  {
    match e
    case Arrive(t, q) =>
      if Refused(tr.site, env, q) || AlreadyThere(tr.site, env, q) then tr
      else tr.(admitted := tr.admitted[t := q])
    case Land(t) => Traffic(Serve(tr.site, env, LetIn(tr.admitted[t])).0, tr.admitted - {t})
    case Drop(target) => tr.(site := Serve(tr.site, env, DeleteRow(target)).0)
  }

  ghost predicate Overlap(tr: Traffic, env: Env, events: seq<Event>)
    decreases |events|
  {
    events == [] || (Happens(tr, events[0]) && Overlap(Happen(tr, env, events[0]), env, events[1..]))
  }

  ghost function AfterEvents(tr: Traffic, env: Env, events: seq<Event>): Traffic
    requires Overlap(tr, env, events)
    decreases |events|
  {
    if events == [] then tr else AfterEvents(Happen(tr, env, events[0]), env, events[1..])
  }

  // The ingest that happens goes into a package labelled `via`, from a request of the other kind.
  ghost predicate CrossesNow(tr: Traffic, env: Env, e: Event, via: CreatedVia)
    requires Happens(tr, e)
  {
    e.Land? && var q := tr.admitted[e.t];
      Crosses(tr.site, env, q, via) && WillLand(tr.site.w.db, env, InfoOf(q), ModeOf(q), q.budget)
  }

  lemma LetInIs(s: Site, env: Env, q: Request, via: CreatedVia)
    requires !q.DeleteRow?
    ensures var l := LetIn(q);
      && !l.DeleteRow? && (Crosses(s, env, l, via) <==> Crosses(s, env, q, via))
      && (WillAdd(s, env, l) <==> WillLand(s.w.db, env, InfoOf(q), ModeOf(q), q.budget))
  {
    assert InfoOf(LetIn(q)) == InfoOf(q);
  }

  lemma HappenKeepsFromIff(tr: Traffic, env: Env, e: Event, via: CreatedVia)
    requires Sound(tr) && Happens(tr, e) && AllFrom(tr.site, via)
    ensures Sound(Happen(tr, env, e))
    ensures AllFrom(Happen(tr, env, e).site, via) <==> !CrossesNow(tr, env, e, via)
  {
    match e
    case Arrive(_, _) =>
    case Land(t) =>
      LetInIs(tr.site, env, tr.admitted[t], via);
      ServeKeepsFromIff(tr.site, env, LetIn(tr.admitted[t]), via);
    case Drop(target) => ServeKeepsFromIff(tr.site, env, DeleteRow(target), via);
  }

  ghost predicate AlwaysFromNow(tr: Traffic, env: Env, events: seq<Event>, via: CreatedVia)
    requires Overlap(tr, env, events)
    decreases |events|
  {
    && Sound(tr) && AllFrom(tr.site, via)
    && (events == [] || AlwaysFromNow(Happen(tr, env, events[0]), env, events[1..], via))
  }

  ghost predicate NothingCrossesNow(tr: Traffic, env: Env, events: seq<Event>, via: CreatedVia)
    requires Overlap(tr, env, events)
    decreases |events|
  {
    events == []
    || (!CrossesNow(tr, env, events[0], via) && NothingCrossesNow(Happen(tr, env, events[0]), env, events[1..], via))
  }

  // However lookups and ingests of any number of requests overlap, all files under packages labelled
  // `via` always came in by such requests exactly if no ingest finds a package of that label in its
  // request's way and goes through.
  lemma {:induction false} OverlappingAlwaysFromIff(tr: Traffic, env: Env, events: seq<Event>, via: CreatedVia)
    requires Overlap(tr, env, events) && Sound(tr) && AllFrom(tr.site, via)
    ensures AlwaysFromNow(tr, env, events, via) <==> NothingCrossesNow(tr, env, events, via)
    decreases |events|
  {
    if events != [] {
      HappenKeepsFromIff(tr, env, events[0], via);
      if !CrossesNow(tr, env, events[0], via) {
        OverlappingAlwaysFromIff(Happen(tr, env, events[0]), env, events[1..], via);
      }
    }
  }

  lemma HappenKeepsLabels(tr: Traffic, env: Env, e: Event, p: nat)
    requires Sound(tr) && Happens(tr, e) && p < tr.site.w.db.nextPackage
    ensures Sound(Happen(tr, env, e))
    ensures var db := Happen(tr, env, e).site.w.db;
      && p < db.nextPackage
      && (p in db.packages ==> p in tr.site.w.db.packages && db.packages[p] == tr.site.w.db.packages[p])
  {
    match e
    case Arrive(_, _) =>
    case Land(t) =>
      ServeKeepsValid(tr.site, env, LetIn(tr.admitted[t]));
      ServeKeepsLabels(tr.site, env, LetIn(tr.admitted[t]), p);
    case Drop(target) =>
      ServeKeepsValid(tr.site, env, DeleteRow(target));
      ServeKeepsLabels(tr.site, env, DeleteRow(target), p);
  }

  lemma {:induction false} OverlappingLabelsAreSticky(tr: Traffic, env: Env, events: seq<Event>, p: nat)
    requires Sound(tr) && Overlap(tr, env, events) && p < tr.site.w.db.nextPackage
    requires p in AfterEvents(tr, env, events).site.w.db.packages
    ensures p in tr.site.w.db.packages
    ensures AfterEvents(tr, env, events).site.w.db.packages[p] == tr.site.w.db.packages[p]
    decreases |events|
  {
    if events != [] {
      HappenKeepsLabels(tr, env, events[0], p);
      OverlappingLabelsAreSticky(Happen(tr, env, events[0]), env, events[1..], p);
    }
  }

  // An upload whose gate worked and let it in lands under a mirrored package only if that package's
  // row was created after the gate had looked.
  lemma OnlyANewerMirrorIsCrossed(tr: Traffic, env: Env, t: nat, q: Request, events: seq<Event>)
    requires Sound(tr) && Happens(tr, Arrive(t, q)) && q.Upload() && !q.lookupFails
    requires var tr1 := Happen(tr, env, Arrive(t, q)); t in tr1.admitted && Overlap(tr1, env, events)
    requires Crosses(AfterEvents(Happen(tr, env, Arrive(t, q)), env, events).site, env, q, PullThrough)
    ensures var later := AfterEvents(Happen(tr, env, Arrive(t, q)), env, events).site;
      Target(later, env, q).value >= tr.site.w.db.nextPackage
  {
    var tr1 := Happen(tr, env, Arrive(t, q));
    var later := AfterEvents(tr1, env, events).site;
    var p := Target(later, env, q).value;
    if p < tr.site.w.db.nextPackage {
      OverlappingLabelsAreSticky(tr1, env, events, p);
      FindIs(tr.site.w.db.packages, PackageKey, p);
    }
  }

  // ---- runs in which a label's promise breaks ----

  const PLAIN := Env(_ => Sums("", "", "", ""), (x: string) => x)
  const EMPTY := Site(World(Empty({1}), map[]), map[])
  const A_PULL := PyPIPull(1, "a", "1", "f", [], 0, 5)
  const AN_UPLOAD := PyPIUpload(1, "a", "a", "1", [], "f", [], 0, false, 5)
  const A_LATER_PULL := PyPIPull(1, "a", "1", "g", [], 0, 5)
  const A_LATER_UPLOAD := PyPIUpload(1, "a", "a", "1", [], "g", [], 0, true, 5)

  lemma FirstFile(info: Info)
    requires info in {InfoOf(A_PULL), InfoOf(AN_UPLOAD)}
    ensures var (later, r) := Add(EMPTY.w, PLAIN, info, MayExist, [], 5);
      r.Ok? && later.db.tenants == {1} && forall f :: f in later.db.files ==> later.db.files[f].lowerName == "f"
  {
    assert !HasFile(EMPTY.w.db, PLAIN, info);
    AddAnswers(EMPTY.w, PLAIN, info, MayExist, [], 5);
    AddLands(EMPTY.w, PLAIN, info, MayExist, [], 5);
    AddLinks(EMPTY.w, PLAIN, info, MayExist, [], 5);
  }

  lemma FirstPackage(info: Info)
    requires info in {InfoOf(A_PULL), InfoOf(AN_UPLOAD)}
    ensures var (later, r) := Add(EMPTY.w, PLAIN, info, MayExist, [], 5);
      && later.db.Valid() && r.Ok?
      && Find(later.db.packages, PackageKey, (1, "pypi", "a")) == Some(r.value.package)
      && later.db.packages[r.value.package].via == info.via
  {
    FirstFile(info);
    AddKeepsValid(EMPTY.w, PLAIN, info, MayExist, [], 5);
    AddsUnderTarget(EMPTY.w, PLAIN, info, MayExist, [], 5);
    var (later, r) := Add(EMPTY.w, PLAIN, info, MayExist, [], 5);
    FindIs(later.db.packages, PackageKey, r.value.package);
  }

  // After the first request the package has its label and one file, f.
  lemma FirstRequest(q: Request)
    requires q in {A_PULL, AN_UPLOAD}
    ensures var s := Serve(EMPTY, PLAIN, q).0;
      && s.w.db.Valid() && s.w.db.tenants == {1} && AllFrom(s, InfoOf(q).via)
      && (forall f :: f in s.w.db.files ==> s.w.db.files[f].lowerName == "f")
      && Find(s.w.db.packages, PackageKey, (1, "pypi", "a")).Some?
      && s.w.db.packages[Find(s.w.db.packages, PackageKey, (1, "pypi", "a")).value].via == InfoOf(q).via
  {
    FirstFile(InfoOf(q));
    FirstPackage(InfoOf(q));
    ServeKeepsFromIff(EMPTY, PLAIN, q, InfoOf(q).via);
    assert Target(EMPTY, PLAIN, q).None?;
  }

  // A pull-through and then an upload whose gate lookup fails, or an upload and then a pull-through:
  // two requests for one package after which its files are of both origins.
  lemma ACrossingRun(q: Request, second: Request)
    requires (q == A_PULL && second == A_LATER_UPLOAD) || (q == AN_UPLOAD && second == A_LATER_PULL)
    ensures var s := Serve(Serve(EMPTY, PLAIN, q).0, PLAIN, second).0;
      s.w.db.Valid() && !AllFrom(s, InfoOf(q).via)
  {
    var s, info := Serve(EMPTY, PLAIN, q).0, InfoOf(second);
    FirstRequest(q);
    assert PackageKey(PackageRow(PLAIN, info)) == (1, "pypi", "a");
    assert !HasFile(s.w.db, PLAIN, info);
    assert WillAdd(s, PLAIN, second);
    ServeKeepsFromIff(s, PLAIN, second, InfoOf(q).via);
  }

  const A_GATED_UPLOAD := PyPIUpload(1, "a", "a", "1", [], "g", [], 0, false, 5)

  lemma NextEvent(tr: Traffic, env: Env, e: Event, rest: seq<Event>)
    requires Happens(tr, e) && Overlap(Happen(tr, env, e), env, rest)
    ensures Overlap(tr, env, [e] + rest)
    ensures AfterEvents(tr, env, [e] + rest) == AfterEvents(Happen(tr, env, e), env, rest)
  {
    assert ([e] + rest)[1..] == rest;
  }

  lemma BothArrive()
    ensures Happen(Traffic(EMPTY, map[]), PLAIN, Arrive(0, A_GATED_UPLOAD)) == Traffic(EMPTY, map[0 := A_GATED_UPLOAD])
    ensures Happen(Traffic(EMPTY, map[0 := A_GATED_UPLOAD]), PLAIN, Arrive(1, A_PULL))
         == Traffic(EMPTY, map[0 := A_GATED_UPLOAD, 1 := A_PULL])
  {
    assert Target(EMPTY, PLAIN, A_GATED_UPLOAD).None?;
  }

  lemma BothLand()
    ensures var tr := Traffic(EMPTY, map[0 := A_GATED_UPLOAD, 1 := A_PULL]);
      var tr' := Traffic(Serve(EMPTY, PLAIN, A_PULL).0, map[0 := A_GATED_UPLOAD]);
      && Happen(tr, PLAIN, Land(1)) == tr'
      && Happen(tr', PLAIN, Land(0)).site == Serve(tr'.site, PLAIN, A_LATER_UPLOAD).0
  {
    var admitted: map<nat, Request> := map[0 := A_GATED_UPLOAD, 1 := A_PULL];
    assert admitted - {1} == map[0 := A_GATED_UPLOAD];
    assert LetIn(A_PULL) == A_PULL && LetIn(A_GATED_UPLOAD) == A_LATER_UPLOAD;
  }

  // The gate looks, finds nothing and lets the upload in; a pull-through comes in between; the upload
  // lands under the mirrored package although no lookup failed.
  lemma AGateRace() returns (events: seq<Event>)
    ensures events == [Arrive(0, A_GATED_UPLOAD), Arrive(1, A_PULL), Land(1), Land(0)]
    ensures Overlap(Traffic(EMPTY, map[]), PLAIN, events)
    ensures var s := AfterEvents(Traffic(EMPTY, map[]), PLAIN, events).site;
      s.w.db.Valid() && !AllFrom(s, PullThrough)
  {
    var tr1 := Traffic(EMPTY, map[0 := A_GATED_UPLOAD]);
    var tr2 := Traffic(EMPTY, map[0 := A_GATED_UPLOAD, 1 := A_PULL]);
    var tr3 := Traffic(Serve(EMPTY, PLAIN, A_PULL).0, map[0 := A_GATED_UPLOAD]);
    BothArrive();
    BothLand();
    var e3 := [Land(0)] + [];
    var e2 := [Land(1)] + e3;
    var e1 := [Arrive(1, A_PULL)] + e2;
    NextEvent(tr3, PLAIN, Land(0), []);
    NextEvent(tr2, PLAIN, Land(1), e3);
    NextEvent(tr1, PLAIN, Arrive(1, A_PULL), e2);
    NextEvent(Traffic(EMPTY, map[]), PLAIN, Arrive(0, A_GATED_UPLOAD), e1);
    events := [Arrive(0, A_GATED_UPLOAD)] + e1;
    ACrossingRun(A_PULL, A_LATER_UPLOAD);
  }

  // ---- the package index ----

  // A line of the index; an upstream file is listed under its local download path.
  type Entry = SimpleIndex.Entry

  predicate Offered(e: Entry, local: set<string>, blocked: Entry -> bool) {
    e.filename !in local && !blocked(e)
  }

  // The upstream files without local namesake that the policy does not block, in upstream order.
  function Additions(upstream: seq<Entry>, local: set<string>, blocked: Entry -> bool): seq<Entry> {
    if upstream == [] then []
    else
      var n := |upstream| - 1;
      Additions(upstream[..n], local, blocked) + if Offered(upstream[n], local, blocked) then [upstream[n]] else []
  }

  function Filenames(files: seq<Entry>): set<string> {
    set e | e in files :: e.filename
  }

  lemma CountLast(files: seq<Entry>, last: Entry, e: Entry)
    ensures multiset(files + [last])[e] == multiset(files)[e] + if last == e then 1 else 0
  {
  }

  // Every offered file appears as often as upstream lists it, and no other file appears.
  lemma {:induction false} AdditionsCount(upstream: seq<Entry>, local: set<string>, blocked: Entry -> bool, e: Entry)
    ensures multiset(Additions(upstream, local, blocked))[e]
         == if e.filename !in local && !blocked(e) then multiset(upstream)[e] else 0
  {
    if upstream != [] {
      var n := |upstream| - 1;
      var before, last := upstream[..n], upstream[n];
      AdditionsCount(before, local, blocked, e);
      assert upstream == before + [last];
      CountLast(before, last, e);
      if Offered(last, local, blocked) {
        CountLast(Additions(before, local, blocked), last, e);
      } else {
        assert Additions(before, local, blocked) + [] == Additions(before, local, blocked);
      }
    }
  }

  // What upstream lists first stays first.
  lemma {:induction false} AdditionsKeepOrder(a: seq<Entry>, b: seq<Entry>, local: set<string>, blocked: Entry -> bool)
    ensures Additions(a + b, local, blocked) == Additions(a, local, blocked) + Additions(b, local, blocked)
  {
    if b == [] {
      assert a + b == a;
    } else {
      assert (a + b)[..|a + b| - 1] == a + b[..|b| - 1];
      AdditionsKeepOrder(a, b[..|b| - 1], local, blocked);
    }
  }

  // upstreamFileEntries, given the names to skip.
  method UpstreamFileEntries(upstream: seq<Entry>, skip: set<string>, blocked: Entry -> bool)
    returns (entries: seq<Entry>)
    ensures entries == Additions(upstream, skip, blocked)
  {
    entries := [];
    for i := 0 to |upstream|
      invariant entries == Additions(upstream[..i], skip, blocked)
    {
      var f := upstream[i];
      assert upstream[..i + 1][..i] == upstream[..i];
      if f.filename !in skip && !blocked(f) {
        entries := entries + [f];
      }
    }
    assert upstream[..|upstream|] == upstream;
  }

  // The index of a package with this label and these local files. `upstream` is absent when
  // pull-through is off or the fetch fails.
  function Index(via: CreatedVia, local: seq<Entry>, upstream: Option<seq<Entry>>, blocked: Entry -> bool): seq<Entry> {
    local + if via == PullThrough && upstream.Some? then Additions(upstream.value, Filenames(local), blocked) else []
  }

  // The file rows `ids` belong to package p.
  predicate Lists(db: Db, p: nat, ids: seq<nat>) {
    forall i :: 0 <= i < |ids| ==>
      && ids[i] in db.files && db.files[ids[i]].version in db.versions && db.files[ids[i]].blob in db.blobs
      && PackageOf(db, ids[i]) == p && p in db.packages
  }

  function LocalEntry(db: Db, f: nat): Entry
    requires f in db.files && db.files[f].version in db.versions && db.files[f].blob in db.blobs
    requires PackageOf(db, f) in db.packages
  {
    var file := db.files[f];
    var url := "../../files/" + db.packages[PackageOf(db, f)].lowerName + "/" + db.versions[file.version].version
      + "/" + file.name;
    SimpleIndex.Entry(file.name, url, db.blobs[file.blob].sha256)
  }

  function LocalEntries(db: Db, p: nat, ids: seq<nat>): seq<Entry>
    requires Lists(db, p, ids)
  {
    seq(|ids|, i requires 0 <= i < |ids| => LocalEntry(db, ids[i]))
  }

  // An index starts with the local files; what follows has no local namesake, and only a mirrored
  // package has any.
  lemma IndexIs(via: CreatedVia, local: seq<Entry>, upstream: Option<seq<Entry>>, blocked: Entry -> bool)
    ensures var files := Index(via, local, upstream, blocked);
      && local <= files
      && forall e :: e in files[|local|..] <==>
           && via == PullThrough && upstream.Some? && e in upstream.value && !blocked(e)
           && forall l :: l in local ==> l.filename != e.filename
  {
    var files := Index(via, local, upstream, blocked);
    if via == PullThrough && upstream.Some? {
      var more := Additions(upstream.value, Filenames(local), blocked);
      assert files[|local|..] == more;
      forall e
        ensures e in more <==> e in upstream.value && Offered(e, Filenames(local), blocked)
      {
        AdditionsCount(upstream.value, Filenames(local), blocked, e);
        assert e in more <==> e in multiset(more);
        assert e in upstream.value <==> e in multiset(upstream.value);
      }
    }
  }

  // ---- the links of the index ----

  // The segments of a path.
  function Split(path: string): (parts: seq<string>)
    ensures parts != []
  {
    if path == "" then [""] else Extend(Split(path[..|path| - 1]), path[|path| - 1])
  }

  function Extend(parts: seq<string>, c: char): (r: seq<string>)
    requires parts != []
    ensures r != []
  {
    var n := |parts| - 1;
    if c == '/' then parts + [""] else parts[..n] + [parts[n] + [c]]
  }

  lemma ExtendLast(parts: seq<string>, more: seq<string>, c: char)
    requires more != []
    ensures Extend(parts + more, c) == parts + Extend(more, c)
  {
    assert (parts + more)[..|parts + more| - 1] == parts + more[..|more| - 1];
  }

  lemma SplitNext(path: string, c: char)
    ensures Split(path + [c]) == Extend(Split(path), c)
  {
    assert (path + [c])[..|path|] == path;
  }

  lemma {:induction false} SplitJoin(a: string, b: string)
    ensures Split(a + "/" + b) == Split(a) + Split(b)
  {
    if b == "" {
      SplitNext(a, '/');
      assert a + "/" + b == a + ['/'];
    } else {
      var before, c := b[..|b| - 1], b[|b| - 1];
      SplitJoin(a, before);
      assert b == before + [c] && a + "/" + b == a + "/" + before + [c];
      SplitNext(a + "/" + before, c);
      SplitNext(before, c);
      ExtendLast(Split(a), Split(before), c);
    }
  }

  lemma {:induction false} SplitWhole(a: string)
    ensures |Split(a)| == 1 <==> '/' !in a
    ensures '/' !in a ==> Split(a) == [a]
  {
    if a != "" {
      SplitWhole(a[..|a| - 1]);
      assert a == a[..|a| - 1] + [a[|a| - 1]];
    }
  }

  lemma LinkParts(name: string, version: string, filename: string)
    ensures Split("../../files/" + name + "/" + version + "/" + filename)
         == ["..", "..", "files"] + Split(name) + Split(version) + Split(filename)
  {
    SplitJoin("../../files/" + name + "/" + version, filename);
    SplitJoin("../../files/" + name, version);
    assert "../../files/" + name == FILES + "/" + name;
    SplitJoin(FILES, name);
    FilesParts();
  }

  const FILES := "../../files"

  lemma ThreeParts(a: string, b: string, c: string)
    requires '/' !in a && '/' !in b && '/' !in c
    ensures Split(a + "/" + b + "/" + c) == [a, b, c]
  {
    SplitJoin(a + "/" + b, c);
    SplitJoin(a, b);
    SplitWhole(a);
    SplitWhole(b);
    SplitWhole(c);
  }

  lemma FilesParts()
    ensures Split(FILES) == ["..", "..", "files"]
  {
    ThreeParts("..", "..", "files");
    assert FILES == ".." + "/" + ".." + "/" + "files";
  }

  // A local line carries the digest of the bytes that reading its file gives, and its link has the route's
  // segments exactly if none of the three names has a slash. Then looking them up, as a download does,
  // leads back to the file, provided the rows' lower-cased columns are what lower-casing gives.
  lemma LinkLeadsBack(w: World, env: Env, f: nat)
    requires Intact(w, env) && f in w.db.files
    ensures var db, file := w.db, w.db.files[f];
      var version := db.versions[file.version];
      var package := db.packages[version.package];
      var e := LocalEntry(db, f);
      var parts := Split(e.url);
      && e.filename == file.name && Read(w, f).Some? && e.sha256 == env.Digest(Read(w, f).value)
      && (|parts| == 6 <==> '/' !in package.lowerName && '/' !in version.version && '/' !in file.name)
      && (|parts| == 6 && version.lowerVersion == env.lower(version.version)
          && file.lowerName == env.lower(file.name) ==>
            && parts[..3] == ["..", "..", "files"]
            && Find(db.packages, PackageKey, (package.tenant, package.typ, parts[3])) == Some(version.package)
            && Find(db.versions, VersionKey, (version.package, env.lower(parts[4]))) == Some(file.version)
            && Find(db.files, FileKey, (file.version, env.lower(parts[5]))) == Some(f))
  {
    var db, file := w.db, w.db.files[f];
    var version := db.versions[file.version];
    var package := db.packages[version.package];
    assert BytesOk(w, env, file.blob);
    LinkParts(package.lowerName, version.version, file.name);
    SplitWhole(package.lowerName);
    SplitWhole(version.version);
    SplitWhole(file.name);
    FindIs(db.packages, PackageKey, version.package);
    FindIs(db.versions, VersionKey, file.version);
    FindIs(db.files, FileKey, f);
  }

  // In every later state the index of a package that was uploaded first lists exactly its local
  // files, whatever upstream offers; and all of them were uploaded if no pull-through targeted an
  // uploaded package.
  lemma UploadedIndexTakesNothing(s: Site, env: Env, qs: seq<Request>, p: nat, ids: seq<nat>,
                                  upstream: Option<seq<Entry>>, blocked: Entry -> bool)
    requires s.w.db.Valid() && p in s.w.db.packages && s.w.db.packages[p].via == Uploaded
    requires p in After(s, env, qs).w.db.packages && Lists(After(s, env, qs).w.db, p, ids)
    ensures var db := After(s, env, qs).w.db;
      Index(db.packages[p].via, LocalEntries(db, p, ids), upstream, blocked) == LocalEntries(db, p, ids)
    ensures AllFrom(s, Uploaded) && NoPullsIntoUploaded(s, env, qs) ==>
      forall f :: f in ids ==> f in After(s, env, qs).origin && After(s, env, qs).origin[f] == Uploaded
  {
    LabelsAreSticky(s, env, qs, p);
    if AllFrom(s, Uploaded) && NoPullsIntoUploaded(s, env, qs) {
      UploadedPackagesHoldUploadedFiles(s, env, qs);
      var later := After(s, env, qs);
      forall f | f in ids
        ensures f in later.origin && later.origin[f] == Uploaded
      {
        assert FromAt(later, Uploaded, f);
      }
    }
  }

  // ---- the handlers as they run ----

  class Handlers {
    const service: Service
    ghost var origin: map<nat, CreatedVia>

    ghost function View(): Site
      reads this, service, service.models
    {
      Site(service.View(), origin)
    }

    constructor (service: Service)
      ensures this.service == service && View() == Site(service.View(), map[])
    {
      this.service := service;
      origin := map[];
    }

    method RunIngest(q: Request) returns (r: Reaction)
      requires !q.DeleteRow? && service.models.DB.Valid()
      modifies this, service, service.models
      ensures service.models.DB.Valid()
      ensures var (w, d) := Add(old(service.View()), service.env, InfoOf(q), ModeOf(q), q.content, q.budget);
        && service.View() == w
        && r == (if d.Ok? then Added(d.value.file) else NotAdded)
        && origin == if d.Ok? then old(origin)[d.value.file := InfoOf(q).via] else old(origin)
    {
      var d;
      if q.GoUpload? {
        d := service.CreatePackageAndAddFile(InfoOf(q), q.content, q.budget);
      } else {
        d := service.CreatePackageOrAddFileToExisting(InfoOf(q), q.content, q.budget);
      }
      match d
      case Err(_) => r := NotAdded;
      case Ok(done) =>
        origin := origin[done.file := InfoOf(q).via];
        r := Added(done.file);
    }

    // The upload handlers of both formats, from the provenance gate on.
    method Upload(q: Request) returns (r: Reaction)
      requires q.Upload() && service.models.DB.Valid()
      modifies this, service, service.models
      ensures (View(), r) == Serve(old(View()), service.env, q) && service.models.DB.Valid()
    {
      if !q.lookupFails {
        var row := PackageRow(service.env, InfoOf(q));
        var existing := service.models.GetPackageByLookup(row.tenant, row.typ, row.lowerName);
        if existing.Some? && service.models.DB.packages[existing.value].via == PullThrough {
          return NotAdded;
        }
      }
      r := RunIngest(q);
    }

    // The persisting step of pullThroughDownload, and pullThroughIngest.
    method PullThroughPersist(q: Request) returns (r: Reaction)
      requires q.Pull() && service.models.DB.Valid()
      modifies this, service, service.models
      ensures (View(), r) == Serve(old(View()), service.env, q) && service.models.DB.Valid()
    {
      if q.GoPull? && !q.lookupFails {
        var row := PackageRow(service.env, InfoOf(q));
        var pkg := service.models.GetPackageByLookup(row.tenant, row.typ, row.lowerName);
        if pkg.Some? {
          var ver := service.models.GetVersion(pkg.value, service.env.lower(q.version));
          if ver.Some? { return NotAdded; }
        }
      }
      r := RunIngest(q);
    }

    // The files of packageIndex. `ids` are the file rows of the readable versions as they are listed.
    method PackageIndex(p: nat, ids: seq<nat>, upstream: Option<seq<Entry>>, blocked: Entry -> bool)
      returns (files: seq<Entry>)
      requires p in service.models.DB.packages && Lists(service.models.DB, p, ids)
      ensures files
           == Index(service.models.DB.packages[p].via, LocalEntries(service.models.DB, p, ids), upstream, blocked)
    {
      files := [];
      var names := {};
      ghost var local := LocalEntries(service.models.DB, p, ids);
      for i := 0 to |ids|
        invariant files == local[..i] && names == Filenames(local[..i])
      {
        var e := LocalEntry(service.models.DB, ids[i]);
        assert local[..i + 1] == local[..i] + [local[i]];
        files := files + [e];
        names := names + {e.filename};
      }
      assert local[..|ids|] == local;
      var more := [];
      if service.models.DB.packages[p].via == PullThrough && upstream.Some? {
        more := UpstreamFileEntries(upstream.value, names, blocked);
      }
      files := files + more;
    }
  }
}
