// Sessions of chunked blob uploads staged in temp files.
//
// `State` and `Do` give every call on the tracker as a value; `UploadTracker` is the tracker with
// its fields, its copy loop and its sweep loop. The staging directory is part of the state: a temp
// file has a unique handle and holds the bytes written to it. A hasher holds the bytes it was fed,
// and `hash` turns those into a digest.
module UploadTracker {
  import opened Wrappers

  type Bytes = seq<bv8>
  type FileId = nat
  type Digest = string

  datatype Upload = Upload(file: FileId, size: nat, lastActive: int, hashed: Bytes)

  // How the copy of one request body ends after `chunks` have been copied in full: at end of input,
  // on a read error, or on a write of `chunk` of which the file took only the first `taken` bytes
  // and the hasher, which comes second, none.
  datatype End = Eof | ReadError | WriteError(chunk: Bytes, taken: nat)

  datatype Body = Body(chunks: seq<Bytes>, end: End) {
    function Partial(): Bytes {
      if end.WriteError? && end.taken <= |end.chunk| then end.chunk[..end.taken] else []
    }

    function ToFile(): Bytes { Flat(chunks) + Partial() }

    function ToHasher(): Bytes { Flat(chunks) }
  }

  function Flat(chunks: seq<Bytes>): Bytes {
    if chunks == [] then [] else Flat(chunks[..|chunks| - 1]) + chunks[|chunks| - 1]
  }

  // `handed` are the files whose responsibility passed to a caller of Finalize.
  datatype State = State(uploads: map<string, Upload>, disk: map<FileId, Bytes>, next: FileId, handed: set<FileId>)

  const INITIAL := State(map[], map[], 0, {})

  datatype Call =
    | Begin(id: string, ready: bool, now: int)   // not ready: no random identifier or no temp file
    | Append(id: string, body: Body, now: int)
    | Size(id: string)
    | Finalize(id: string, want: Digest, seekOk: bool)
    | Cancel(id: string)
    | SweepIdle(timeout: int, now: int)

  datatype Answer =
    | Opened
    | NoSession
    | NoSuchUpload
    | Total(size: nat)
    | CopyFailed(size: nat)
    | DigestMismatch
    | SeekFailed
    | Handed(file: FileId, size: nat, digest: Digest)
    | Done
    | Swept(n: nat)

  predicate Stale(u: Upload, timeout: int, now: int) {
    u.lastActive < now - timeout
  }

  function StaleIds(uploads: map<string, Upload>, timeout: int, now: int): set<string> {
    set id | id in uploads && Stale(uploads[id], timeout, now)
  }

  function FilesOf(uploads: map<string, Upload>, ids: set<string>): set<FileId> {
    set id | id in ids && id in uploads :: uploads[id].file
  }

  // Removes a session together with its file.
  function Drop(s: State, id: string): State
    requires id in s.uploads
  {
    s.(uploads := s.uploads - {id}, disk := s.disk - {s.uploads[id].file})
  }

  function Content(s: State, f: FileId): Bytes {
    if f in s.disk then s.disk[f] else []
  }

  function Do(hash: Bytes -> Digest, s: State, call: Call): (State, Answer) {
    match call
    case Begin(id, ready, now) =>
      if !ready then (s, NoSession)
      else (State(s.uploads[id := Upload(s.next, 0, now, [])], s.disk[s.next := []], s.next + 1, s.handed), Opened)
    case Append(id, body, now) =>
      if id !in s.uploads then (s, NoSuchUpload)
      else
        var u := s.uploads[id];
        var ok := body.end.Eof?;
        var u' := Upload(u.file, u.size + (if ok then |body.ToFile()| else 0),
                         if ok then now else u.lastActive, u.hashed + body.ToHasher());
        (s.(uploads := s.uploads[id := u'], disk := s.disk[u.file := Content(s, u.file) + body.ToFile()]),
         if ok then Total(u'.size) else CopyFailed(u.size))
    case Size(id) =>
      (s, if id in s.uploads then Total(s.uploads[id].size) else NoSuchUpload)
    case Finalize(id, want, seekOk) =>
      if id !in s.uploads then (s, NoSuchUpload)
      else
        var u := s.uploads[id];
        if want != "" && want != hash(u.hashed) then (Drop(s, id), DigestMismatch)
        else if !seekOk then (Drop(s, id), SeekFailed)
        else (s.(uploads := s.uploads - {id}, handed := s.handed + {u.file}), Handed(u.file, u.size, hash(u.hashed)))
    case Cancel(id) =>
      (if id in s.uploads then Drop(s, id) else s, Done)
    case SweepIdle(timeout, now) =>
      var stale := StaleIds(s.uploads, timeout, now);
      (s.(uploads := s.uploads - stale, disk := s.disk - FilesOf(s.uploads, stale)), Swept(|stale|))
  }

  function Final(hash: Bytes -> Digest, calls: seq<Call>): State {
    if calls == [] then INITIAL else Do(hash, Final(hash, calls[..|calls| - 1]), calls[|calls| - 1]).0
  }

  function AnswerAt(hash: Bytes -> Digest, calls: seq<Call>, i: nat): Answer
    requires i < |calls|
  {
    Do(hash, Final(hash, calls[..i]), calls[i]).1
  }

  // ---- where files are ----

  // The temp files of live sessions.
  function Live(s: State): set<FileId> {
    set id | id in s.uploads :: s.uploads[id].file
  }

  // Temp files that are on disk and that nobody will ever remove.
  function Orphans(s: State): set<FileId> {
    s.disk.Keys - Live(s) - s.handed
  }

  // Each session has its own file on disk and no live file has been handed over.
  ghost predicate Valid(s: State) {
    && (forall id :: id in s.uploads ==> s.uploads[id].file in s.disk && s.uploads[id].file !in s.handed)
    && (forall i, j :: i in s.uploads && j in s.uploads && s.uploads[i].file == s.uploads[j].file ==> i == j)
    && s.handed <= s.disk.Keys
    && (forall f :: f in s.disk ==> f < s.next)
  }

  lemma DoKeepsValid(hash: Bytes -> Digest, s: State, call: Call)
    requires Valid(s)
    ensures Valid(Do(hash, s, call).0)
  {
  }

  lemma {:induction false} RunIsValid(hash: Bytes -> Digest, calls: seq<Call>)
    ensures Valid(Final(hash, calls))
  {
    if calls != [] {
      RunIsValid(hash, calls[..|calls| - 1]);
      DoKeepsValid(hash, Final(hash, calls[..|calls| - 1]), calls[|calls| - 1]);
    }
  }

  predicate Collides(s: State, call: Call) {
    call.Begin? && call.ready && call.id in s.uploads
  }

  lemma LiveFile(s: State, f: FileId)
    ensures f in Live(s) <==> exists id :: id in s.uploads && s.uploads[id].file == f
  {
  }

  lemma LiveAfter(hash: Bytes -> Digest, s: State, call: Call, f: FileId)
    requires Valid(s)
    ensures f in Live(Do(hash, s, call).0) ==> f in Live(s) || f == s.next
    ensures var s' := Do(hash, s, call).0;
      f in Live(s) && f !in Live(s') ==> f in s'.handed || f !in s'.disk || Collides(s, call)
    ensures f !in Live(s) && f in s.disk && f !in s.handed ==> f in Orphans(Do(hash, s, call).0)
  {
    var s' := Do(hash, s, call).0;
    LiveFile(s, f);
    LiveFile(s', f);
    if f in Live(s) {
      var id :| id in s.uploads && s.uploads[id].file == f;
      if id in s'.uploads {
        assert s'.uploads[id].file in {f, s.next};
      }
    }
  }

  // A session ends once: its file never becomes live again.
  lemma {:induction false} EndedStaysEnded(hash: Bytes -> Digest, calls: seq<Call>, i: nat, f: FileId)
    requires i <= |calls| && f < Final(hash, calls[..i]).next && f !in Live(Final(hash, calls[..i]))
    ensures f < Final(hash, calls).next && f !in Live(Final(hash, calls))
    ensures f in Final(hash, calls[..i]).handed ==> f in Final(hash, calls).handed
  {
    if i == |calls| {
      assert calls[..i] == calls;
    } else {
      var before := calls[..|calls| - 1];
      assert before[..i] == calls[..i];
      EndedStaysEnded(hash, before, i, f);
      RunIsValid(hash, before);
      LiveAfter(hash, Final(hash, before), calls[|calls| - 1], f);
    }
  }

  // The n-th call ends the session whose file is f.
  predicate Ends(hash: Bytes -> Digest, calls: seq<Call>, n: nat, f: FileId)
    requires n < |calls|
  {
    f in Live(Final(hash, calls[..n])) && f !in Live(Final(hash, calls[..n + 1]))
  }

  // No session is consumed twice, and no file is handed to two callers.
  lemma SessionsEndOnce(hash: Bytes -> Digest, calls: seq<Call>, i: nat, j: nat, f: FileId)
    requires i < j < |calls| && Ends(hash, calls, i, f)
    ensures !Ends(hash, calls, j, f)
    ensures !(AnswerAt(hash, calls, j).Handed? && AnswerAt(hash, calls, j).file == f)
  {
    RunIsValid(hash, calls[..i]);
    assert calls[..i + 1][..i] == calls[..i];
    LiveFile(Final(hash, calls[..i]), f);
    assert calls[..j][..i + 1] == calls[..i + 1];
    EndedStaysEnded(hash, calls[..j], i + 1, f);
    LiveFile(Final(hash, calls[..j]), f);
  }

  lemma HandingOverEnds(hash: Bytes -> Digest, calls: seq<Call>, n: nat)
    requires n < |calls| && AnswerAt(hash, calls, n).Handed?
    ensures Ends(hash, calls, n, AnswerAt(hash, calls, n).file)
    ensures AnswerAt(hash, calls, n).file in Final(hash, calls[..n + 1]).handed
  {
    assert calls[..n + 1][..n] == calls[..n];
    RunIsValid(hash, calls[..n]);
    var f := AnswerAt(hash, calls, n).file;
    LiveFile(Final(hash, calls[..n]), f);
    LiveFile(Final(hash, calls[..n + 1]), f);
  }

  // Only a successful Finalize passes a file on: all other ends remove it.
  lemma {:induction false} HandedIff(hash: Bytes -> Digest, calls: seq<Call>, f: FileId)
    ensures f in Final(hash, calls).handed <==>
      exists i :: 0 <= i < |calls| && AnswerAt(hash, calls, i).Handed? && AnswerAt(hash, calls, i).file == f
  {
    if calls != [] {
      var n := |calls| - 1;
      HandedIff(hash, calls[..n], f);
      forall i | 0 <= i < n
        ensures AnswerAt(hash, calls, i) == AnswerAt(hash, calls[..n], i)
      {
        assert calls[..n][..i] == calls[..i];
      }
      assert f in Final(hash, calls).handed <==>
        f in Final(hash, calls[..n]).handed || (AnswerAt(hash, calls, n).Handed? && AnswerAt(hash, calls, n).file == f);
    }
  }

  lemma OrphansAfter(hash: Bytes -> Digest, s: State, call: Call)
    requires Valid(s)
    ensures Orphans(Do(hash, s, call).0) == {} <==> Orphans(s) == {} && !Collides(s, call)
  {
    var s' := Do(hash, s, call).0;
    DoKeepsValid(hash, s, call);
    if Orphans(s) != {} {
      var f :| f in Orphans(s);
      LiveAfter(hash, s, call, f);
    } else if Collides(s, call) {
      var f := s.uploads[call.id].file;
      LiveFile(s, f);
      LiveFile(s', f);
      assert f in Orphans(s');
    } else {
      forall f
        ensures f in Orphans(s') ==> f in Orphans(s)
      {
        OrphansAreNotNew(hash, s, call, f);
      }
    }
  }

  lemma OrphansAreNotNew(hash: Bytes -> Digest, s: State, call: Call, f: FileId)
    requires Valid(s) && !Collides(s, call)
    ensures f in Orphans(Do(hash, s, call).0) ==> f in Orphans(s)
  {
    var s' := Do(hash, s, call).0;
    LiveFile(s, f);
    LiveFile(s', f);
    LiveAfter(hash, s, call, f);
    if call.Begin? && call.ready {
      assert s'.uploads[call.id].file == s.next;
    }
  }

  // No call starts a session under an identifier that a live session still uses.
  predicate NoCollision(hash: Bytes -> Digest, calls: seq<Call>) {
    calls == [] ||
    var before := calls[..|calls| - 1];
    NoCollision(hash, before) && !Collides(Final(hash, before), calls[|calls| - 1])
  }

  lemma {:induction false} OrphansRemember(hash: Bytes -> Digest, calls: seq<Call>)
    ensures Orphans(Final(hash, calls)) == {} <==> NoCollision(hash, calls)
  {
    if calls != [] {
      var before := calls[..|calls| - 1];
      OrphansRemember(hash, before);
      RunIsValid(hash, before);
      OrphansAfter(hash, Final(hash, before), calls[|calls| - 1]);
    }
  }

  // Every temp file ever created is in exactly one place: with a live session, handed to a caller
  // of Finalize, or removed; precisely as long as no identifier was issued twice.
  lemma EveryFileHasOnePlace(hash: Bytes -> Digest, calls: seq<Call>)
    ensures var s := Final(hash, calls);
      (forall f :: 0 <= f < s.next ==>
        (if f in Live(s) then 1 else 0) + (if f in s.handed then 1 else 0) + (if f !in s.disk then 1 else 0) == 1)
      <==> NoCollision(hash, calls)
  {
    var s := Final(hash, calls);
    RunIsValid(hash, calls);
    OrphansRemember(hash, calls);
    forall f
      ensures f in Orphans(s) <==> f in s.disk && f !in Live(s) && f !in s.handed
      ensures f in Live(s) ==> f in s.disk && f !in s.handed
    {
      LiveFile(s, f);
    }
    if Orphans(s) != {} {
      var f :| f in Orphans(s);
      assert 0 <= f < s.next;
    }
  }

  // ---- what a finished upload contains ----

  // The bodies appended to the session whose file is f, in order.
  function Appended(hash: Bytes -> Digest, calls: seq<Call>, f: FileId): seq<Body> {
    if calls == [] then []
    else
      var s, call := Final(hash, calls[..|calls| - 1]), calls[|calls| - 1];
      var before := Appended(hash, calls[..|calls| - 1], f);
      if call.Append? && call.id in s.uploads && s.uploads[call.id].file == f then before + [call.body] else before
  }

  function FileBytes(bodies: seq<Body>): Bytes {
    if bodies == [] then [] else FileBytes(bodies[..|bodies| - 1]) + bodies[|bodies| - 1].ToFile()
  }

  function HashedBytes(bodies: seq<Body>): Bytes {
    if bodies == [] then [] else HashedBytes(bodies[..|bodies| - 1]) + bodies[|bodies| - 1].ToHasher()
  }

  // The total the tracker reports: bodies copied to the end only.
  function Counted(bodies: seq<Body>): nat {
    if bodies == [] then 0
    else Counted(bodies[..|bodies| - 1]) + if bodies[|bodies| - 1].end.Eof? then |bodies[|bodies| - 1].ToFile()| else 0
  }

  ghost predicate Tracks(s: State, id: string, bodies: seq<Body>) {
    id in s.uploads ==>
      && s.uploads[id].file in s.disk
      && s.disk[s.uploads[id].file] == FileBytes(bodies)
      && s.uploads[id].hashed == HashedBytes(bodies)
      && s.uploads[id].size == Counted(bodies)
  }

  lemma {:induction false} NothingAppendedYet(hash: Bytes -> Digest, calls: seq<Call>, f: FileId)
    requires f >= Final(hash, calls).next
    ensures Appended(hash, calls, f) == []
  {
    if calls != [] {
      var before := calls[..|calls| - 1];
      RunIsValid(hash, before);
      NothingAppendedYet(hash, before, f);
    }
  }

  lemma TracksAfter(hash: Bytes -> Digest, s: State, call: Call, id: string, bodies: seq<Body>)
    requires Valid(s) && id in s.uploads && Tracks(s, id, bodies)
    requires id in Do(hash, s, call).0.uploads && !(call.Begin? && call.ready && call.id == id)
    ensures var s' := Do(hash, s, call).0;
      && s'.uploads[id].file == s.uploads[id].file
      && Tracks(s', id, if call.Append? && call.id == id then bodies + [call.body] else bodies)
  {
    if call.Append? && call.id == id {
      assert (bodies + [call.body])[..|bodies|] == bodies;
    }
  }

  lemma {:induction false} SessionsTrackTheirBodies(hash: Bytes -> Digest, calls: seq<Call>, id: string)
    requires id in Final(hash, calls).uploads
    ensures Tracks(Final(hash, calls), id, Appended(hash, calls, Final(hash, calls).uploads[id].file))
  {
    var before, call := calls[..|calls| - 1], calls[|calls| - 1];
    var s := Final(hash, before);
    RunIsValid(hash, before);
    if call.Begin? && call.ready && call.id == id {
      NothingAppendedYet(hash, before, s.next);
    } else {
      SessionsTrackTheirBodies(hash, before, id);
      TracksAfter(hash, s, call, id, Appended(hash, before, s.uploads[id].file));
    }
  }

  // A successful Finalize hands over the bytes of all appended bodies in order, the digest of the
  // bytes the hasher saw, and the total of the appends that succeeded.
  lemma FinalizeHandsOverWhatWasAppended(hash: Bytes -> Digest, calls: seq<Call>, n: nat)
    requires n < |calls| && AnswerAt(hash, calls, n).Handed?
    ensures var r := AnswerAt(hash, calls, n);
      var bodies := Appended(hash, calls[..n], r.file);
      && Content(Final(hash, calls[..n + 1]), r.file) == FileBytes(bodies)
      && r.digest == hash(HashedBytes(bodies))
      && r.size == Counted(bodies)
      && (calls[n].want != "" ==> r.digest == calls[n].want)
  {
    assert calls[..n + 1][..n] == calls[..n];
    SessionsTrackTheirBodies(hash, calls[..n], calls[n].id);
  }

  // The bytes hashed are those handed over exactly when no file write was cut short, and the
  // total is their number exactly when every failed append left nothing in the file.
  lemma {:induction false} WhenDigestAndSizeAreRight(bodies: seq<Body>)
    ensures |HashedBytes(bodies)| <= |FileBytes(bodies)|
    ensures HashedBytes(bodies) == FileBytes(bodies) <==> forall b :: b in bodies ==> b.Partial() == []
    ensures Counted(bodies) <= |FileBytes(bodies)|
    ensures Counted(bodies) == |FileBytes(bodies)| <==> forall b :: b in bodies ==> b.end.Eof? || b.ToFile() == []
  {
    if bodies != [] {
      var before, last := bodies[..|bodies| - 1], bodies[|bodies| - 1];
      WhenDigestAndSizeAreRight(before);
      assert bodies == before + [last];
      assert forall b :: b in bodies <==> b in before || b == last;
      if last.Partial() == [] {
        assert last.ToFile() == last.ToHasher();
        if HashedBytes(bodies) == FileBytes(bodies) {
          assert HashedBytes(before) == FileBytes(bodies)[..|HashedBytes(before)|];
        }
      } else {
        assert |HashedBytes(bodies)| < |FileBytes(bodies)|;
      }
    }
  }

  // Unless the two byte strings collide, the digest handed over is that of the file's bytes exactly
  // when no file write was cut short.
  lemma DigestIsTheFilesIff(hash: Bytes -> Digest, calls: seq<Call>, n: nat)
    requires n < |calls| && AnswerAt(hash, calls, n).Handed?
    ensures var r := AnswerAt(hash, calls, n);
      var bodies := Appended(hash, calls[..n], r.file);
      var content := Content(Final(hash, calls[..n + 1]), r.file);
      (hash(HashedBytes(bodies)) == hash(content) ==> HashedBytes(bodies) == content) ==>
        (r.digest == hash(content) <==> forall b :: b in bodies ==> b.Partial() == [])
  {
    FinalizeHandsOverWhatWasAppended(hash, calls, n);
    WhenDigestAndSizeAreRight(Appended(hash, calls[..n], AnswerAt(hash, calls, n).file));
  }

  // ---- every answer, from the calls alone ----

  // What the calls so far say about one identifier: the bodies appended since its session was opened,
  // and when it was opened or last appended to in full.
  datatype Session = Session(bodies: seq<Body>, since: int)

  function Heard(session: Option<Session>, id: string, call: Call): Option<Session> {
    match call
    case Begin(other, ready, now) => if other == id && ready then Some(Session([], now)) else session
    case Append(other, body, now) =>
      if other != id || session.None? then session
      else Some(Session(session.value.bodies + [body], if body.end.Eof? then now else session.value.since))
    case Size(_) => session
    case Finalize(other, _, _) => if other == id then None else session
    case Cancel(other) => if other == id then None else session
    case SweepIdle(timeout, now) =>
      if session.Some? && session.value.since < now - timeout then None else session
  }

  function OpenSession(calls: seq<Call>, id: string): Option<Session> {
    if calls == [] then None else Heard(OpenSession(calls[..|calls| - 1], id), id, calls[|calls| - 1])
  }

  ghost predicate Mirrors(s: State, id: string, session: Option<Session>) {
    && (id in s.uploads <==> session.Some?)
    && (session.Some? ==> s.uploads[id].lastActive == session.value.since && Tracks(s, id, session.value.bodies))
  }

  lemma MirrorsAfter(hash: Bytes -> Digest, s: State, call: Call, id: string, session: Option<Session>)
    requires Valid(s) && Mirrors(s, id, session)
    ensures Mirrors(Do(hash, s, call).0, id, Heard(session, id, call))
  {
    if session.Some? && id in Do(hash, s, call).0.uploads && !(call.Begin? && call.ready && call.id == id) {
      TracksAfter(hash, s, call, id, session.value.bodies);
    }
  }

  lemma {:induction false} SessionsAre(hash: Bytes -> Digest, calls: seq<Call>, id: string)
    ensures Mirrors(Final(hash, calls), id, OpenSession(calls, id))
  {
    if calls != [] {
      var before := calls[..|calls| - 1];
      RunIsValid(hash, before);
      SessionsAre(hash, before, id);
      MirrorsAfter(hash, Final(hash, before), calls[|calls| - 1], id, OpenSession(before, id));
    }
  }

  // A session can be finalized once. If it is live, the file is handed over if and only if it can be
  // rewound and the digest asked for is none or that of the bytes hashed, and the digest is refused if
  // and only if it is neither.
  lemma FinalizeAnswers(hash: Bytes -> Digest, calls: seq<Call>, i: nat)
    requires i < |calls| && calls[i].Finalize?
    ensures var r, session, want := AnswerAt(hash, calls, i), OpenSession(calls[..i], calls[i].id), calls[i].want;
      if session.None? then r == NoSuchUpload
      else
        var bodies := session.value.bodies;
        var right := want == "" || want == hash(HashedBytes(bodies));
        && (r.Handed? <==> right && calls[i].seekOk)
        && (r == SeekFailed <==> right && !calls[i].seekOk)
        && (r == DigestMismatch <==> !right)
        && (r.Handed? ==>
              && r.size == Counted(bodies) && r.digest == hash(HashedBytes(bodies))
              && Content(Final(hash, calls[..i + 1]), r.file) == FileBytes(bodies))
    ensures OpenSession(calls[..i + 1], calls[i].id) == None
  {
    assert calls[..i + 1][..i] == calls[..i];
    SessionsAre(hash, calls[..i], calls[i].id);
  }

  lemma AppendAnswers(hash: Bytes -> Digest, calls: seq<Call>, i: nat)
    requires i < |calls| && calls[i].Append?
    ensures var r, session, body := AnswerAt(hash, calls, i), OpenSession(calls[..i], calls[i].id), calls[i].body;
      if session.None? then r == NoSuchUpload
      else if body.end.Eof? then r == Total(Counted(session.value.bodies) + |Flat(body.chunks)|)
      else r == CopyFailed(Counted(session.value.bodies))
  {
    SessionsAre(hash, calls[..i], calls[i].id);
  }

  // Opening fails only without an identifier or a file, the size is that of the bodies appended in full,
  // and cancelling always succeeds.
  lemma OtherAnswers(hash: Bytes -> Digest, calls: seq<Call>, i: nat)
    requires i < |calls| && (calls[i].Begin? || calls[i].Size? || calls[i].Cancel?)
    ensures var r, session := AnswerAt(hash, calls, i), OpenSession(calls[..i], calls[i].id);
      if calls[i].Begin? then r == if calls[i].ready then Opened else NoSession
      else if calls[i].Cancel? then r == Done
      else if session.Some? then r == Total(Counted(session.value.bodies))
      else r == NoSuchUpload
  {
    SessionsAre(hash, calls[..i], calls[i].id);
  }

  // A sweep ends exactly the sessions idle for longer than the timeout, and answers how many.
  lemma SweepAnswers(hash: Bytes -> Digest, calls: seq<Call>, i: nat) returns (stale: set<string>)
    requires i < |calls| && calls[i].SweepIdle?
    ensures AnswerAt(hash, calls, i) == Swept(|stale|)
    ensures forall id :: id in stale <==>
      var session := OpenSession(calls[..i], id);
      session.Some? && session.value.since < calls[i].now - calls[i].timeout
    ensures forall id :: id in Final(hash, calls[..i + 1]).uploads <==>
      OpenSession(calls[..i], id).Some? && id !in stale
  {
    assert calls[..i + 1][..i] == calls[..i];
    var s := Final(hash, calls[..i]);
    stale := StaleIds(s.uploads, calls[i].timeout, calls[i].now);
    forall id
      ensures Mirrors(s, id, OpenSession(calls[..i], id))
    {
      SessionsAre(hash, calls[..i], id);
    }
  }

  // How a body was cut into chunks, and the bytes into bodies, makes no difference: all bytes count in
  // their order. Of the write that failed the file has what it took.
  lemma {:induction false} FlatInOrder(a: seq<Bytes>, b: seq<Bytes>)
    ensures Flat(a + b) == Flat(a) + Flat(b)
    ensures |b| == 1 ==> Flat(b) == b[0]
  {
    if b == [] {
      assert a + b == a;
    } else {
      var rest, last := b[..|b| - 1], b[|b| - 1];
      assert (a + b)[..|a + b| - 1] == a + rest;
      FlatInOrder(a, rest);
    }
  }

  lemma {:induction false} BytesInOrder(a: seq<Body>, b: seq<Body>)
    ensures FileBytes(a + b) == FileBytes(a) + FileBytes(b)
    ensures HashedBytes(a + b) == HashedBytes(a) + HashedBytes(b)
    ensures Counted(a + b) == Counted(a) + Counted(b)
  {
    if b == [] {
      assert a + b == a;
    } else {
      var rest, last := b[..|b| - 1], b[|b| - 1];
      BytesInOrder(a, rest);
      assert (a + b)[..|a + b| - 1] == a + rest && (a + b)[|a + b| - 1] == last;
      Regroup(FileBytes(a), FileBytes(rest), last.ToFile());
      Regroup(HashedBytes(a), HashedBytes(rest), last.ToHasher());
    }
  }

  lemma Regroup(a: Bytes, b: Bytes, c: Bytes)
    ensures a + b + c == a + (b + c)
  {
  }

  lemma OneBody(body: Body)
    ensures HashedBytes([body]) == Flat(body.chunks)
    ensures body.end.Eof? ==> FileBytes([body]) == Flat(body.chunks) && Counted([body]) == |Flat(body.chunks)|
    ensures body.end.ReadError? ==> FileBytes([body]) == Flat(body.chunks) && Counted([body]) == 0
    ensures body.end.WriteError? && body.end.taken <= |body.end.chunk| ==>
      FileBytes([body]) == Flat(body.chunks) + body.end.chunk[..body.end.taken] && Counted([body]) == 0
  {
    assert [body][..0] == [];
  }

  // ---- runs in which the promises fail ----

  lemma FinalNext(hash: Bytes -> Digest, calls: seq<Call>, call: Call)
    ensures Final(hash, calls + [call]) == Do(hash, Final(hash, calls), call).0
    ensures AnswerAt(hash, calls + [call], |calls|) == Do(hash, Final(hash, calls), call).1
  {
    assert (calls + [call])[..|calls|] == calls;
  }

  // A write of which the file took a byte and the hasher none, then Finalize without a wanted digest:
  // the file holds the byte and the digest is that of no bytes.
  lemma AShortWriteIsNotCovered(hash: Bytes -> Digest, b: bv8) returns (calls: seq<Call>)
    ensures |calls| == 3 && AnswerAt(hash, calls, 2) == Handed(0, 0, hash([]))
    ensures Content(Final(hash, calls), 0) == [b]
  {
    var body := Body([], WriteError([b], 1));
    var c0: seq<Call> := [];
    var c1 := c0 + [Begin("a", true, 0)];
    var c2 := c1 + [Append("a", body, 0)];
    calls := c2 + [Finalize("a", "", true)];
    FinalNext(hash, c0, Begin("a", true, 0));
    FinalNext(hash, c1, Append("a", body, 0));
    FinalNext(hash, c2, Finalize("a", "", true));
    assert [b][..1] == [b];
    assert body.ToFile() == [b] && body.ToHasher() == [];
    assert Final(hash, c1) == State(map["a" := Upload(0, 0, 0, [])], map[0 := []], 1, {});
    assert Final(hash, c2) == State(map["a" := Upload(0, 0, 0, [])], map[0 := [b]], 1, {});
  }

  // The same identifier for two sessions at once: nobody is left to remove the first one's file.
  lemma TwoSessionsUnderOneIdOrphanAFile(hash: Bytes -> Digest) returns (calls: seq<Call>)
    ensures |calls| == 2 && AnswerAt(hash, calls, 0) == AnswerAt(hash, calls, 1) == Opened
    ensures Orphans(Final(hash, calls)) == {0}
  {
    var begin := Begin("a", true, 0);
    calls := [begin] + [begin];
    FinalNext(hash, [], begin);
    FinalNext(hash, [begin], begin);
    assert [] + [begin] == [begin] && calls[..0] == [];
    assert Final(hash, [begin]) == State(map["a" := Upload(0, 0, 0, [])], map[0 := []], 1, {});
    var s := Final(hash, calls);
    assert s == State(map["a" := Upload(1, 0, 0, [])], map[0 := [], 1 := []], 2, {});
    LiveFile(s, 0);
    LiveFile(s, 1);
    assert Live(s) == {1};
  }

  // ---- the tracker as it runs ----

  // The sweep's loop has looked at all sessions but `left`.
  ghost predicate SweptBut(uploads: map<string, Upload>, all: set<string>, left: set<string>,
                           kept: map<string, Upload>, stale: set<string>, files: set<FileId>)
  {
    left <= uploads.Keys && stale == all - left && kept == uploads - stale && files == FilesOf(uploads, stale)
  }

  lemma SweptNext(uploads: map<string, Upload>, all: set<string>, left: set<string>,
                  kept: map<string, Upload>, stale: set<string>, files: set<FileId>, id: string)
    requires SweptBut(uploads, all, left, kept, stale, files) && id in left
    ensures id in all ==>
      SweptBut(uploads, all, left - {id}, kept - {id}, stale + {id}, files + {uploads[id].file})
    ensures id !in all ==> SweptBut(uploads, all, left - {id}, kept, stale, files)
  {
    if id in all {
      assert all - (left - {id}) == (all - left) + {id};
      assert uploads - (stale + {id}) == uploads - stale - {id};
      assert FilesOf(uploads, stale + {id}) == FilesOf(uploads, stale) + {uploads[id].file};
    } else {
      assert all - (left - {id}) == all - left;
    }
  }

  // The sweep's loop over the session map: what stays, how many go, and their files.
  method UnlinkStale(uploads: map<string, Upload>, timeout: int, now: int)
    returns (kept: map<string, Upload>, n: nat, files: set<FileId>)
    ensures var stale := StaleIds(uploads, timeout, now);
      kept == uploads - stale && files == FilesOf(uploads, stale) && n == |stale|
  {
    kept, files := uploads, {};
    ghost var all := StaleIds(uploads, timeout, now);
    var left := uploads.Keys;
    var stale: set<string> := {};
    assert uploads - stale == uploads;
    while left != {}
      invariant SweptBut(uploads, all, left, kept, stale, files)
      decreases left
    {
      var id :| id in left;
      SweptNext(uploads, all, left, kept, stale, files, id);
      if Stale(uploads[id], timeout, now) {
        files := files + {uploads[id].file};
        kept := kept - {id};
        stale := stale + {id};
      }
      left := left - {id};
    }
    assert stale == all;
    n := |stale|;
  }

  class UploadTracker {
    var uploads: map<string, Upload>
    var disk: map<FileId, Bytes>
    var next: FileId
    ghost var handed: set<FileId>
    const hash: Bytes -> Digest

    ghost function View(): State
      reads this
    {
      State(uploads, disk, next, handed)
    }

    constructor (hash: Bytes -> Digest)
      ensures View() == INITIAL && this.hash == hash
    {
      uploads, disk, next, handed := map[], map[], 0, {};
      this.hash := hash;
    }

    method Begin(id: string, ready: bool, now: int) returns (ok: bool)
      modifies this
      ensures (View(), if ok then Opened else NoSession) == Do(hash, old(View()), Call.Begin(id, ready, now))
    {
      if !ready { return false; }
      disk := disk[next := []];
      uploads := uploads[id := Upload(next, 0, now, [])];
      next := next + 1;
      return true;
    }

    method Append(id: string, body: Body, now: int) returns (r: Answer)
      requires Valid(View())
      modifies this
      ensures (View(), r) == Do(hash, old(View()), Call.Append(id, body, now))
    {
      if id !in uploads { return NoSuchUpload; }
      var u := uploads[id];
      var file, hashed := disk[u.file], u.hashed;
      var n := 0;
      for i := 0 to |body.chunks|
        invariant n == |Flat(body.chunks[..i])|
        invariant file == disk[u.file] + Flat(body.chunks[..i])
        invariant hashed == u.hashed + Flat(body.chunks[..i])
      {
        assert body.chunks[..i + 1][..i] == body.chunks[..i];
        file := file + body.chunks[i];
        hashed := hashed + body.chunks[i];
        n := n + |body.chunks[i]|;
      }
      assert body.chunks[..|body.chunks|] == body.chunks;
      file := file + body.Partial();
      assert file == disk[u.file] + body.ToFile();
      disk := disk[u.file := file];
      u := u.(hashed := hashed);
      if !body.end.Eof? {
        uploads := uploads[id := u];
        return CopyFailed(u.size);
      }
      u := u.(size := u.size + n, lastActive := now);
      uploads := uploads[id := u];
      return Total(u.size);
    }

    method Size(id: string) returns (r: Answer)
      ensures (View(), r) == Do(hash, old(View()), Call.Size(id))
    {
      r := if id in uploads then Total(uploads[id].size) else NoSuchUpload;
    }

    method Finalize(id: string, want: Digest, seekOk: bool) returns (r: Answer)
      modifies this
      ensures (View(), r) == Do(hash, old(View()), Call.Finalize(id, want, seekOk))
    {
      if id !in uploads { return NoSuchUpload; }
      var u := uploads[id];
      uploads := uploads - {id};
      var got := hash(u.hashed);
      if want != "" && want != got {
        disk := disk - {u.file};
        return DigestMismatch;
      }
      if !seekOk {
        disk := disk - {u.file};
        return SeekFailed;
      }
      handed := handed + {u.file};
      return Handed(u.file, u.size, got);
    }

    method Cancel(id: string)
      modifies this
      ensures View() == Do(hash, old(View()), Call.Cancel(id)).0
    {
      if id in uploads {
        var u := uploads[id];
        uploads := uploads - {id};
        disk := disk - {u.file};
      }
    }

    // Unlinks the stale sessions first and then removes their files.
    method SweepIdle(timeout: int, now: int) returns (n: nat)
      modifies this
      ensures (View(), Swept(n)) == Do(hash, old(View()), Call.SweepIdle(timeout, now))
    {
      var files;
      uploads, n, files := UnlinkStale(uploads, timeout, now);
      disk := disk - files;
    }
  }
}
