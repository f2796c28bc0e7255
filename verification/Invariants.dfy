/** What every reachable state of the protocol satisfies about routes, backends and pending work. */
module Invariants {
  import opened Options
  import opened Projections
  import opened Mapping
  import opened Sessions
  import opened Protocol

  predicate Pending(w: World) {
    ReconfigureTask in w.tasks
  }

  /** The one host language a file can have. */
  function FixedKind(env: Env, file: string): Host {
    if env.extensionHost(file) != OtherHost then env.extensionHost(file) else Bash
  }

  /** Every document's current text has been named by the editor. */
  ghost predicate DocsNamed(w: World) {
    forall u | u in w.s.docs :: Named(u, w.s.docs[u].version, w.s.docs[u].text) in w.named
  }

  /** A reading taken in the current epoch is of the current settings and folders; an older one is about to be undone. */
  predicate ReadingOk(w: World, epoch: nat, settings: Settings, folders: seq<string>) {
    epoch <= w.s.epoch &&
    (epoch == w.s.epoch ==> settings == w.s.settings && folders == w.s.folders) &&
    (epoch != w.s.epoch ==> Pending(w))
  }

  ghost predicate JobOk(env: Env, w: World, job: Job)
    requires Sensible(env)
  {
    ReadingOk(w, job.epoch, job.settings, job.folders) &&
    Named(job.uri, job.doc.version, job.doc.text) in w.named &&
    job.kind == FixedKind(env, env.fileOf(job.uri)) &&
    job.key == KeyFor(env, env.fileOf(job.uri), job.kind, job.settings, job.folders) &&
    env.checked(env.fileOf(job.uri), job.doc.text, job.settings, job.folders) &&
    Project(env, job.doc.text, job.kind, job.settings) == Some(job.project) && job.project.safe
  }

  ghost predicate SectionOk(env: Env, w: World)
    requires Sensible(env)
  {
    match w.section
    case Starting(job) => JobOk(env, w, job)
    case Installing(job, id) => JobOk(env, w, job) && Running(w, job.key, id)
    case Sending(job, id, _) =>
      JobOk(env, w, job) && Running(w, job.key, id) &&
      JobName(env, job) in w.s.routes && w.s.routes[JobName(env, job)] == JobRoute(job)
    case _ => true
  }

  ghost predicate BuiltFrom(env: Env, w: World, r: Route, text: Text)
    requires Sensible(env)
  {
    Named(r.source, r.version, text) in w.named && Project(env, text, r.kind, w.s.settings) == Some(r.project)
  }

  ghost predicate RouteOk(env: Env, w: World, name: string)
    requires Sensible(env) && name in w.s.routes
  {
    var r := w.s.routes[name];
    var file := env.fileOf(r.source);
    name == VirtualName(file, r.version, r.kind) && r.kind == FixedKind(env, file) && r.epoch <= w.s.epoch && r.project.safe &&
    (r.epoch != w.s.epoch ==> Pending(w)) &&
    (r.epoch == w.s.epoch ==>
       r.key == KeyFor(env, file, r.kind, w.s.settings, w.s.folders) && exists text :: BuiltFrom(env, w, r, text)) &&
    (r.source !in w.s.docs ==> CloseHostTask(r.source) in w.tasks || Pending(w))
  }

  ghost predicate RoutesOk(env: Env, w: World)
    requires Sensible(env)
  {
    forall n | n in w.s.routes :: RouteOk(env, w, n)
  }

  /** At most one route for a source and a backend key. */
  predicate RoutesUnique(s: Session) {
    forall m, n | m in s.routes && n in s.routes && s.routes[m].source == s.routes[n].source &&
                  s.routes[m].key == s.routes[n].key :: m == n
  }

  /** A registered backend was started under its key from the current settings, or is about to be replaced; and a goroutine
      watches it unless it has been stopped. */
  predicate BackendOk(w: World, key: string)
    requires key in w.s.backends
  {
    var id := w.s.backends[key];
    id in w.s.processes &&
    var p := w.s.processes[id];
    p.key == key && (p.settings == w.s.settings || Pending(w)) && (p.closed || WatchTask(key, id) in w.tasks)
  }

  predicate BackendsOk(w: World) {
    forall key | key in w.s.backends :: BackendOk(w, key)
  }

  /** No backend is ever lost: it is registered under its own key, or it has been stopped. */
  predicate Conserved(w: World) {
    forall id | id in w.s.processes :: Kept(w, id)
  }

  predicate Kept(w: World, id: nat)
    requires id in w.s.processes
  {
    var p := w.s.processes[id];
    p.kind != OtherHost && p.path == BackendPath(p.settings, p.kind) && p.key == MakeKey(p.kind, p.root, p.path) &&
    (p.closed || Running(w, p.key, id))
  }

  /** A document open in a registered backend is the one a route points at. */
  predicate OpenOk(w: World, key: string, name: string) {
    Pending(w) || (name in w.s.routes && w.s.routes[name].key == key) ||
    (w.section.Sending? && w.section.job.key == key && w.section.prior == Some(name))
  }

  predicate OpenIn(s: Session, key: string, name: string) {
    key in s.backends && s.backends[key] in s.processes && name in s.processes[s.backends[key]].openDocs
  }

  ghost predicate NoneLeftOpen(w: World) {
    forall key, name | OpenIn(w.s, key, name) :: OpenOk(w, key, name)
  }

  ghost predicate RouteInv(env: Env, w: World)
    requires Sensible(env)
  {
    DocsNamed(w) && SectionOk(env, w) && RoutesOk(env, w) && RoutesUnique(w.s)
  }

  ghost predicate BackendInv(w: World) {
    BackendsOk(w) && Conserved(w) && NoneLeftOpen(w)
  }

  ghost predicate Inv(env: Env, w: World)
    requires Sensible(env)
  {
    RouteInv(env, w) && BackendInv(w)
  }

  // ----- steps that only show something -----

  /** Only host results and the editor's log change. */
  predicate OnlyShows(w: World, w': World) {
    w'.s == w.s.(host := w'.s.host, log := w'.s.log) && w'.named == w.named &&
    (w'.section == w.section || (w.section.Failing? && w'.section.Free?)) &&
    (forall task | task in w.tasks && !task.FailureTask? :: task in w'.tasks)
  }

  lemma SaveShows(env: Env, w: World, u: Uri)
    ensures OnlyShows(w, w.(s := DidSave(env, w.s, u)))
  {
  }

  lemma PublishShows(env: Env, w: World, kind: Host, name: string, version: nat, ds: seq<Diagnostic>)
    ensures OnlyShows(w, DoBackendPublishes(env, w, kind, name, version, ds))
  {
  }

  lemma FailureShows(env: Env, w: World)
    requires w.section.Failing?
    ensures OnlyShows(w, DoReportFailure(env, w))
  {
  }

  lemma ReportShows(env: Env, w: World, u: Uri, version: int32, message: string)
    ensures OnlyShows(w, DoReportsFailure(env, w, u, version, message))
  {
  }
}
