/** What the editor sees over a whole run: nothing outside an open session of a document, versions that never go back,
    and cached host results of the current version only. */
module Publication {
  import opened Options
  import opened Projections
  import opened Mapping
  import opened Sessions
  import opened Protocol

  /** The last the editor saw of a document. */
  datatype Seen = NotOpen | JustOpened | At(version: int32)

  function LastSeen(log: seq<Event>, u: Uri): Seen {
    if log == [] then NotOpen
    else
      var e := log[|log|-1];
      if e.uri != u then LastSeen(log[..|log|-1], u)
      else match e
        case Opened(_) => JustOpened
        case Published(_, version, _) => At(version)
        case Cleared(_) => NotOpen
  }

  predicate MayPublish(seen: Seen, version: int32) {
    seen.JustOpened? || (seen.At? && seen.version <= version)
  }

  predicate WellPublished(log: seq<Event>) {
    log == [] ||
    (WellPublished(log[..|log|-1]) &&
     var e := log[|log|-1];
     e.Published? ==> MayPublish(LastSeen(log[..|log|-1], e.uri), e.version))
  }

  ghost predicate LogMatches(s: Session) {
    WellPublished(s.log) &&
    forall u :: LastSeen(s.log, u) == if u in s.docs then At(s.docs[u].version) else NotOpen
  }

  /** Every cached host result belongs to an open document and has its current version. */
  predicate CacheCurrent(s: Session) {
    forall u | u in s.host :: u in s.docs && s.host[u].version == s.docs[u].version
  }

  lemma PublishKeeps(env: Env, s: Session, u: Uri)
    requires u in s.docs && WellPublished(s.log)
    requires MayPublish(LastSeen(s.log, u), s.docs[u].version)
    requires forall v | v != u :: LastSeen(s.log, v) == if v in s.docs then At(s.docs[v].version) else NotOpen
    ensures LogMatches(Publish(env, s, u))
  {
    var t := Publish(env, s, u);
    assert t.log[..|t.log|-1] == s.log;
  }

  lemma {:induction false} RepublishKeeps(env: Env, s: Session, order: seq<Uri>)
    requires forall i | 0 <= i < |order| :: order[i] in s.docs
    requires LogMatches(s)
    ensures LogMatches(Republish(env, s, order))
    decreases |order|
  {
    if order != [] {
      assert order[0] in s.docs;
      PublishKeeps(env, s, order[0]);
      RepublishKeeps(env, Publish(env, s, order[0]), order[1..]);
    }
  }

  lemma OpenKeeps(env: Env, s: Session, u: Uri, text: Text, version: int32)
    requires LogMatches(s)
    ensures LogMatches(DidOpen(env, s, u, text, version))
  {
    var t := s.(docs := s.docs[u := Document(text, version)], host := s.host - {u}, log := s.log + [Opened(u)]);
    assert t.log[..|t.log|-1] == s.log;
    PublishKeeps(env, t, u);
  }

  lemma CloseKeeps(s: Session, u: Uri)
    requires LogMatches(s)
    ensures LogMatches(DidClose(s, u))
  {
    var t := DidClose(s, u);
    assert t.log[..|t.log|-1] == s.log;
  }

  lemma FailureKeeps(env: Env, s: Session, u: Uri, version: int32, message: string)
    requires LogMatches(s)
    ensures LogMatches(HostFailure(env, s, u, version, message))
  {
    if u in s.docs && s.docs[u].version == version {
      PublishKeeps(env, s.(host := s.host[u := HostResult(version, [FailureDiagnostic(message)])]), u);
    }
  }

  lemma BackendKeeps(env: Env, s: Session, kind: Host, name: string, version: nat, ds: seq<Diagnostic>)
    requires LogMatches(s)
    ensures LogMatches(BackendPublish(env, s, kind, name, version, ds))
  {
    if RouteCurrent(s, kind, name, version) {
      var r := s.routes[name];
      PublishKeeps(env, s.(host := s.host[r.source := HostResult(r.version, MapAll(r.project, kind, ds))]), r.source);
    }
  }

  lemma EditorLog(env: Env, w: World, step: EditorStep)
    requires EditorMay(w, step) && LogMatches(w.s)
    ensures LogMatches(DoEditor(env, w, step).s)
  {
    match step
    case Open(u, text, version) => OpenKeeps(env, w.s, u, text, version);
    case Change(u, version, changes) =>
      if Newer(w.s, u, version) {
        var doc := Document(LastText(w.s.docs[u].text, changes), version);
        PublishKeeps(env, w.s.(docs := w.s.docs[u := doc], host := w.s.host - {u}), u);
      }
    case Save(u) => if u in w.s.docs { PublishKeeps(env, w.s, u); }
    case Close(u) => CloseKeeps(w.s, u);
    case Configure(settings, order) =>
      RepublishKeeps(env, w.s.(settings := settings, epoch := w.s.epoch + 1, host := map[]), order);
    case ChangeFolders(removed, added, order) =>
      RepublishKeeps(env, w.s.(folders := RemoveAll(w.s.folders, removed) + added, epoch := w.s.epoch + 1, host := map[]),
                     order);
  }

  lemma SyncLog(env: Env, w: World, step: SyncStep)
    requires Sensible(env) && SyncMay(w, step) && LogMatches(w.s)
    ensures LogMatches(DoSync(env, w, step).s)
  {
    match step
    case Send(ok) =>
      var job := w.section.job;
      var rest := w.s.processes[w.section.id].openDocs - (if w.section.prior.Some? then {w.section.prior.value} else {});
      FailureKeeps(env, SetOpened(w.s, w.section.id, rest), job.uri, job.doc.version, Message(job.kind, SendFailed));
    case ReportFailure => FailureKeeps(env, w.s, w.section.uri, w.section.version, w.section.message);
    case _ =>
  }

  lemma OtherLog(env: Env, w: World, step: OtherStep)
    requires OtherMay(w, step) && LogMatches(w.s)
    ensures LogMatches(DoOther(env, w, step).s)
  {
    match step
    case BackendPublishes(kind, name, version, ds) => BackendKeeps(env, w.s, kind, name, version, ds);
    case ReportsFailure(u, version, message) => FailureKeeps(env, w.s, u, version, message);
    case _ =>
  }

  lemma BackendKeepsCache(env: Env, s: Session, kind: Host, name: string, version: nat, ds: seq<Diagnostic>)
    requires CacheCurrent(s)
    ensures CacheCurrent(BackendPublish(env, s, kind, name, version, ds))
  {
  }

  lemma FailureKeepsCache(env: Env, s: Session, u: Uri, version: int32, message: string)
    requires CacheCurrent(s)
    ensures CacheCurrent(HostFailure(env, s, u, version, message))
  {
  }

  lemma SendKeepsCache(env: Env, s: Session, job: Job, id: nat, prior: Option<string>, ok: bool)
    requires CacheCurrent(s) && id in s.processes
    ensures CacheCurrent(SendProjection(env, s, job, id, prior, ok))
  {
  }

  lemma EditorCache(env: Env, w: World, step: EditorStep)
    requires EditorMay(w, step) && CacheCurrent(w.s)
    ensures CacheCurrent(DoEditor(env, w, step).s)
  {
    match step
    case Open(_, _, _) =>
    case Change(_, _, _) =>
    case _ =>
  }

  lemma SyncCache(env: Env, w: World, step: SyncStep)
    requires Sensible(env) && SyncMay(w, step) && CacheCurrent(w.s)
    ensures CacheCurrent(DoSync(env, w, step).s)
  {
    match step
    case Send(ok) => SendKeepsCache(env, w.s, w.section.job, w.section.id, w.section.prior, ok);
    case ReportFailure => FailureKeepsCache(env, w.s, w.section.uri, w.section.version, w.section.message);
    case _ =>
  }

  lemma OtherCache(env: Env, w: World, step: OtherStep)
    requires OtherMay(w, step) && CacheCurrent(w.s)
    ensures CacheCurrent(DoOther(env, w, step).s)
  {
    match step
    case BackendPublishes(kind, name, version, ds) => BackendKeepsCache(env, w.s, kind, name, version, ds);
    case ReportsFailure(u, version, message) => FailureKeepsCache(env, w.s, u, version, message);
    case _ =>
  }

  // ----- read off the log -----

  /** In every log that `LogMatches` allows, a publication between two events of the same document that opens no new session
      has a version no lower than an earlier publication, and after a clear there is none. */
  lemma {:induction false} SeenSince(log: seq<Event>, i: nat, u: Uri)
    requires WellPublished(log) && i < |log| && log[i].uri == u
    requires forall k | i < k < |log| :: log[k] != Opened(u)
    ensures log[i].Published? ==>
              LastSeen(log, u) == NotOpen || (LastSeen(log, u).At? && LastSeen(log, u).version >= log[i].version)
    ensures log[i].Cleared? ==> LastSeen(log, u) == NotOpen
    decreases |log|
  {
    var init := log[..|log|-1];
    if i < |log| - 1 {
      SeenSince(init, i, u);
    }
  }

  /** Published versions of a document never decrease within one of its sessions. The unsigned number on the wire does not
      either, except exactly when the session steps from a negative version to a non-negative one. */
  lemma VersionsNeverDecrease(log: seq<Event>, i: nat, j: nat, u: Uri)
    requires WellPublished(log) && i < j < |log|
    requires log[i].Published? && log[j].Published? && log[i].uri == log[j].uri == u
    requires forall k | i < k < j :: log[k] != Opened(u)
    ensures log[i].version <= log[j].version
    ensures Wire(log[i].version) <= Wire(log[j].version) <==> !(log[i].version < 0 <= log[j].version)
    ensures forall k | i < k < j :: log[k] != Cleared(u)
  {
    WellPublishedPrefix(log, j + 1);
    var init := log[..j+1][..j];
    assert init == log[..j] && log[..j+1][j] == log[j];
    SeenSince(init, i, u);
    forall k | i < k < j ensures log[k] != Cleared(u) {
      if log[k] == Cleared(u) {
        SeenSince(init, k, u);
      }
    }
  }

  /** After a document is closed and its diagnostics cleared, nothing is published for it until it is opened again. */
  lemma NothingAfterClose(log: seq<Event>, i: nat, j: nat, u: Uri)
    requires WellPublished(log) && i < j < |log|
    requires log[i] == Cleared(u) && log[j].Published? && log[j].uri == u
    ensures exists k :: i < k < j && log[k] == Opened(u)
  {
    if forall k | i < k < j :: log[k] != Opened(u) {
      WellPublishedPrefix(log, j + 1);
      var init := log[..j+1][..j];
      assert init == log[..j] && log[..j+1][j] == log[j];
      SeenSince(init, i, u);
    }
  }

  lemma {:induction false} WellPublishedPrefix(log: seq<Event>, n: nat)
    requires WellPublished(log) && n <= |log|
    ensures WellPublished(log[..n])
    decreases |log|
  {
    if n < |log| {
      WellPublishedPrefix(log[..|log|-1], n);
      assert log[..|log|-1][..n] == log[..n];
    } else {
      assert log[..n] == log;
    }
  }
}
