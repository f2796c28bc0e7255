/** The server and its backends as a transition system. A step is one section under `mu`, or one whole section under
    `syncMu` where that holds at most one section under `mu`: what only `syncMu` protects is not visible outside it.
    `syncHost` needs more than one step, so it leaves a continuation that keeps `syncMu`. Spawned goroutines wait in
    `tasks`. Backends may publish and disconnect at any time. */
module Protocol {
  import opened Options
  import opened Projections
  import opened Mapping
  import opened Sessions

  datatype Task =
    | SyncHostTask(uri: Uri)
    | CloseHostTask(uri: Uri)
    | ReconfigureTask
    | WatchTask(key: string, id: nat)
    | FailureTask(uri: Uri, version: int32, message: string)

  /** Who holds `syncMu`, and what it still has to do. */
  datatype Section =
    | Free
    | Starting(job: Job)
    | Installing(job: Job, id: nat)
    | Sending(job: Job, id: nat, prior: Option<string>)
    | Failing(uri: Uri, version: int32, message: string)

  /** A version of a document that the editor has named, with its text. */
  datatype Named = Named(uri: Uri, version: int32, text: Text)

  /** What a backend has published about a projected document. */
  datatype Heard = Heard(kind: Host, name: string, diagnostics: seq<Diagnostic>)

  datatype World = World(s: Session, section: Section, tasks: multiset<Task>, named: set<Named>, heard: set<Heard>)

  /** What the editor asks for. */
  datatype EditorStep =
    | Open(uri: Uri, text: Text, version: int32)
    | Change(uri: Uri, newVersion: int32, changes: seq<Text>)
    | Save(uri: Uri)
    | Close(uri: Uri)
    | Configure(settings: Settings, order: seq<Uri>)
    | ChangeFolders(removed: seq<string>, added: seq<string>, order: seq<Uri>)

  /** The sections of one `syncHost`, in order. */
  datatype SyncStep =
    | ReadDocument(uri: Uri)
    | ReuseBackend
    | StartsBackend(id: nat)
    | FailsToStart(spawned: Option<nat>)
    | Install(prior: Option<string>)
    | Send(ok: bool)
    | ReportFailure

  /** Everything else: backends, and the other goroutines. */
  datatype OtherStep =
    | BackendPublishes(kind: Host, name: string, wire: nat, diagnostics: seq<Diagnostic>)
    | ClosesHost(uri: Uri, victim: Option<string>)
    | Reconfigures
    | Disconnects(key: string, id: nat)
    | StopsWatching(key: string, id: nat)
    | ReportsFailure(uri: Uri, version: int32, message: string)
    | ClosesBackends

  datatype Step = Editor(editor: EditorStep) | Sync(sync: SyncStep) | Other(other: OtherStep)

  function Spawn(w: World, t: Task): World {
    w.(tasks := w.tasks + multiset{t})
  }

  function Finish(w: World, t: Task): World {
    w.(tasks := w.tasks - multiset{t})
  }

  function Remember(w: World, u: Uri): World {
    if u in w.s.docs then w.(named := w.named + {Named(u, w.s.docs[u].version, w.s.docs[u].text)}) else w
  }

  function SyncAll(docs: map<Uri, Document>): multiset<Task> {
    multiset(set u | u in docs :: SyncHostTask(u))
  }

  function Affected(routes: map<string, Route>, key: string): multiset<Task> {
    multiset(set n | n in routes && routes[n].key == key ::
               FailureTask(routes[n].source, routes[n].version, Message(routes[n].kind, Disconnected)))
  }

  predicate Running(w: World, key: string, id: nat) {
    key in w.s.backends && w.s.backends[key] == id
  }

  // ----- when a step may be taken -----

  predicate EditorMay(w: World, step: EditorStep) {
    match step
    case Configure(_, order) => Visits(order, w.s.docs.Keys)
    case ChangeFolders(_, _, order) => Visits(order, w.s.docs.Keys)
    case _ => true
  }

  /** A stopped backend has its connection closed, so nothing can be sent to it. */
  ghost predicate SyncMay(w: World, step: SyncStep) {
    match step
    case ReadDocument(u) => w.section.Free? && SyncHostTask(u) in w.tasks
    case ReuseBackend => w.section.Starting? && w.section.job.key in w.s.backends
    case StartsBackend(id) => w.section.Starting? && w.section.job.key !in w.s.backends && id !in w.s.processes
    case FailsToStart(spawned) =>
      w.section.Starting? && w.section.job.key !in w.s.backends && (spawned.Some? ==> spawned.value !in w.s.processes)
    case Install(prior) => w.section.Installing? && PriorOf(w.s, w.section.job.uri, w.section.job.key, prior)
    case Send(ok) => w.section.Sending? && w.section.id in w.s.processes && (ok ==> !w.s.processes[w.section.id].closed)
    case ReportFailure => w.section.Failing?
  }

  ghost predicate OtherMay(w: World, step: OtherStep) {
    match step
    case BackendPublishes(_, _, _, _) => true
    case ClosesHost(u, victim) => w.section.Free? && CloseHostTask(u) in w.tasks && Victim(w.s, u, victim)
    case Reconfigures => w.section.Free? && ReconfigureTask in w.tasks
    case Disconnects(key, id) => w.section.Free? && WatchTask(key, id) in w.tasks && id in w.s.processes
    case StopsWatching(key, id) => WatchTask(key, id) in w.tasks && id in w.s.processes && w.s.processes[id].closed
    case ReportsFailure(u, version, message) => FailureTask(u, version, message) in w.tasks
    case ClosesBackends => w.section.Free?
  }

  ghost predicate Enabled(w: World, step: Step) {
    match step
    case Editor(e) => EditorMay(w, e)
    case Sync(y) => SyncMay(w, y)
    case Other(o) => OtherMay(w, o)
  }

  // ----- what each step does -----

  function DoOpen(env: Env, w: World, u: Uri, text: Text, version: int32): World {
    Spawn(Remember(w.(s := DidOpen(env, w.s, u, text, version)), u), SyncHostTask(u))
  }

  function DoChange(env: Env, w: World, u: Uri, version: int32, changes: seq<Text>): World {
    if Newer(w.s, u, version)
    then Spawn(Remember(w.(s := DidChange(env, w.s, u, version, changes)), u), SyncHostTask(u)) else w
  }

  function DoClose(w: World, u: Uri): World {
    Spawn(w.(s := DidClose(w.s, u)), CloseHostTask(u))
  }

  function DoConfigure(env: Env, w: World, settings: Settings, order: seq<Uri>): World
    requires Visits(order, w.s.docs.Keys)
  {
    Spawn(w.(s := DidChangeConfiguration(env, w.s, settings, order)), ReconfigureTask)
  }

  function DoChangeFolders(env: Env, w: World, removed: seq<string>, added: seq<string>, order: seq<Uri>): World
    requires Visits(order, w.s.docs.Keys)
  {
    Spawn(w.(s := DidChangeWorkspaceFolders(env, w.s, removed, added, order)), ReconfigureTask)
  }

  ghost function DoBackendPublishes(env: Env, w: World, kind: Host, name: string, version: nat, ds: seq<Diagnostic>): World {
    w.(s := BackendPublish(env, w.s, kind, name, version, ds), heard := w.heard + {Heard(kind, name, ds)})
  }

  function DoReadDocument(env: Env, w: World, u: Uri): World
    requires Sensible(env)
  {
    Finish(w.(section := match PlanSync(env, w.s, u)
                         case Skip => Free
                         case Refuse(message) => Failing(u, w.s.docs[u].version, message)
                         case Go(job) => Starting(job)), SyncHostTask(u))
  }

  function DoReuseBackend(w: World): World
    requires w.section.Starting? && w.section.job.key in w.s.backends
  {
    w.(section := Installing(w.section.job, w.s.backends[w.section.job.key]))
  }

  function DoStartsBackend(env: Env, w: World, id: nat): World
    requires w.section.Starting?
  {
    Spawn(w.(s := StartBackend(env, w.s, w.section.job, id, false), section := Installing(w.section.job, id)),
          WatchTask(w.section.job.key, id))
  }

  function DoFailsToStart(env: Env, w: World, spawned: Option<nat>): World
    requires w.section.Starting?
  {
    var job := w.section.job;
    w.(s := if spawned.Some? then StartBackend(env, w.s, job, spawned.value, true) else w.s,
       section := Failing(job.uri, job.doc.version, Message(job.kind, NotStarted)))
  }

  function DoInstall(env: Env, w: World, prior: Option<string>): World
    requires w.section.Installing?
  {
    w.(s := InstallRoute(env, w.s, w.section.job),
       section := if StillCurrent(w.s, w.section.job) then Sending(w.section.job, w.section.id, prior) else Free)
  }

  function DoSend(env: Env, w: World, ok: bool): World
    requires w.section.Sending? && w.section.id in w.s.processes
  {
    w.(s := SendProjection(env, w.s, w.section.job, w.section.id, w.section.prior, ok), section := Free)
  }

  function DoReportFailure(env: Env, w: World): World
    requires w.section.Failing?
  {
    w.(s := HostFailure(env, w.s, w.section.uri, w.section.version, w.section.message), section := Free)
  }

  function DoClosesHost(w: World, u: Uri, victim: Option<string>): World
    requires Victim(w.s, u, victim)
  {
    Finish(w.(s := CloseHost(w.s, u, victim)), CloseHostTask(u))
  }

  function DoReconfigures(w: World): World {
    var f := Finish(w, ReconfigureTask);
    f.(s := Reconfigure(w.s), tasks := f.tasks + SyncAll(w.s.docs))
  }

  function DoDisconnects(w: World, key: string, id: nat): World
    requires id in w.s.processes
  {
    var f := Finish(w, WatchTask(key, id));
    f.(s := Disconnect(w.s, key, id),
       tasks := f.tasks + if Running(w, key, id) then Affected(w.s.routes, key) else multiset{})
  }

  function DoReportsFailure(env: Env, w: World, u: Uri, version: int32, message: string): World {
    Finish(w.(s := HostFailure(env, w.s, u, version, message)), FailureTask(u, version, message))
  }

  function DoEditor(env: Env, w: World, step: EditorStep): World
    requires EditorMay(w, step)
  {
    match step
    case Open(u, text, version) => DoOpen(env, w, u, text, version)
    case Change(u, version, changes) => DoChange(env, w, u, version, changes)
    case Save(u) => w.(s := DidSave(env, w.s, u))
    case Close(u) => DoClose(w, u)
    case Configure(settings, order) => DoConfigure(env, w, settings, order)
    case ChangeFolders(removed, added, order) => DoChangeFolders(env, w, removed, added, order)
  }

  ghost function DoSync(env: Env, w: World, step: SyncStep): World
    requires Sensible(env) && SyncMay(w, step)
  {
    match step
    case ReadDocument(u) => DoReadDocument(env, w, u)
    case ReuseBackend => DoReuseBackend(w)
    case StartsBackend(id) => DoStartsBackend(env, w, id)
    case FailsToStart(spawned) => DoFailsToStart(env, w, spawned)
    case Install(prior) => DoInstall(env, w, prior)
    case Send(ok) => DoSend(env, w, ok)
    case ReportFailure => DoReportFailure(env, w)
  }

  ghost function DoOther(env: Env, w: World, step: OtherStep): World
    requires OtherMay(w, step)
  {
    match step
    case BackendPublishes(kind, name, version, ds) => DoBackendPublishes(env, w, kind, name, version, ds)
    case ClosesHost(u, victim) => DoClosesHost(w, u, victim)
    case Reconfigures => DoReconfigures(w)
    case Disconnects(key, id) => DoDisconnects(w, key, id)
    case StopsWatching(key, id) => Finish(w, WatchTask(key, id))
    case ReportsFailure(u, version, message) => DoReportsFailure(env, w, u, version, message)
    case ClosesBackends => w.(s := StopAll(w.s))
  }

  ghost function Do(env: Env, w: World, step: Step): World
    requires Sensible(env) && Enabled(w, step)
  {
    match step
    case Editor(e) => DoEditor(env, w, e)
    case Sync(y) => DoSync(env, w, y)
    case Other(o) => DoOther(env, w, o)
  }

  /** After `Initialize`: some settings and folders, nothing open. */
  predicate Initial(w: World) {
    w.s.docs == map[] && w.s.host == map[] && w.s.epoch == 0 && w.s.routes == map[] && w.s.backends == map[] &&
    w.s.processes == map[] && w.s.log == [] && w.section.Free? && w.tasks == multiset{} && w.named == {} && w.heard == {}
  }

  /** Every run of the server: any number of steps, in any order the locks allow. */
  ghost predicate Run(env: Env, w: World, steps: seq<Step>, w': World)
    requires Sensible(env)
    decreases |steps|
  {
    if steps == [] then w == w'
    else Enabled(w, steps[0]) && Run(env, Do(env, w, steps[0]), steps[1..], w')
  }

  ghost predicate Reachable(env: Env, w: World)
    requires Sensible(env)
  {
    exists w0, steps :: Initial(w0) && Run(env, w0, steps, w)
  }

  lemma {:induction false} RunOneMore(env: Env, w: World, steps: seq<Step>, w': World, step: Step)
    requires Sensible(env) && Run(env, w, steps, w') && Enabled(w', step)
    ensures Run(env, w, steps + [step], Do(env, w', step))
    decreases |steps|
  {
    if steps == [] {
      assert ([step])[1..] == [];
    } else {
      assert (steps + [step])[1..] == steps[1..] + [step];
      RunOneMore(env, Do(env, w, steps[0]), steps[1..], w', step);
    }
  }

  lemma ReachableStep(env: Env, w: World, step: Step)
    requires Sensible(env) && Reachable(env, w) && Enabled(w, step)
    ensures Reachable(env, Do(env, w, step))
  {
    var w0, steps :| Initial(w0) && Run(env, w0, steps, w);
    RunOneMore(env, w0, steps, w, step);
  }
}
