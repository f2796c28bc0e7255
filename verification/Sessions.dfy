/** The state that the Plato server's two locks protect, and what each critical section does to it. */
module Sessions {
  import opened Options
  import opened Strings
  import opened Utf8
  import opened Positions
  import opened Projections
  import opened Mapping

  type Uri = string
  type Text = seq<byte>
  type int32 = v: int | -0x8000_0000 <= v < 0x8000_0000

  /** The version number as the protocol library sends it: the unsigned number of 32 bits that is congruent to it. */
  function Wire(version: int32): (r: nat)
    ensures r < 0x1_0000_0000 && (r as int - version as int) % 0x1_0000_0000 == 0
  {
    if version < 0 then version + 0x1_0000_0000 else version
  }

  datatype Settings = Settings(yamlBackend: string, bashBackend: string, schemas: set<string>, rest: string)

  /** What the session takes as given: file names, file classification, workspace lookup, parsing and syntax checking. The
      file system is read as a pure function. */
  datatype Env = Env(
    fileOf: Uri -> string,
    extensionHost: string -> Host,
    shellScript: Text -> bool,
    rootOf: (string, Settings, seq<string>) -> string,
    checked: (string, Text, Settings, seq<string>) -> bool,
    syntax: (string, Text, Settings, seq<string>) -> seq<Diagnostic>,
    template: (Text, Host, set<string>) -> Option<Template>)

  /** The parser yields sorted literals of the text it was given. */
  ghost predicate Sensible(env: Env) {
    forall text, host, schemas ::
      var t := env.template(text, host, schemas);
      t.Some? ==> ValidTemplate(t.value) && t.value.source == text && t.value.host == host
  }

  datatype Document = Document(text: Text, version: int32)

  datatype HostResult = HostResult(version: int32, diagnostics: seq<Diagnostic>)

  datatype Route = Route(source: Uri, version: int32, epoch: nat, kind: Host, key: string, project: Projection)

  /** A backend process: its settings are those its client answers configuration requests with, and its open documents have the
      text it was sent last. */
  datatype Process = Process(key: string, kind: Host, root: string, path: string, settings: Settings, openDocs: map<string, Text>,
                             closed: bool)

  /** What the editor sees: it opens and closes documents, and receives diagnostics. */
  datatype Event =
    | Opened(uri: Uri)
    | Published(uri: Uri, version: int32, shown: seq<Diagnostic>)
    | Cleared(uri: Uri)

  datatype Session = Session(
    docs: map<Uri, Document>,
    host: map<Uri, HostResult>,
    settings: Settings,
    folders: seq<string>,
    epoch: nat,
    routes: map<string, Route>,
    backends: map<string, nat>,
    processes: map<nat, Process>,
    log: seq<Event>)

  // ----- naming -----

  function KindName(kind: Host): string {
    match kind
    case Yaml => "yaml"
    case Bash => "bash"
    case OtherHost => ""
  }

  function Extension(kind: Host): string {
    match kind
    case Yaml => ".yaml"
    case Bash => ".sh"
    case OtherHost => ""
  }

  /** The URI a projection is shown to its backend under. */
  function VirtualName(file: string, version: int32, kind: Host): string {
    file + ".plato-ls-v" + Decimal(version) + Extension(kind)
  }

  function MakeKey(kind: Host, root: string, path: string): string {
    KindName(kind) + "|" + root + "|" + path
  }

  // ----- pure decisions -----

  function HostForFile(env: Env, file: string, text: Text): Host {
    if env.extensionHost(file) != OtherHost then env.extensionHost(file)
    else if env.shellScript(text) then Bash
    else OtherHost
  }

  function BackendPath(settings: Settings, kind: Host): string {
    if kind == Bash then settings.bashBackend else settings.yamlBackend
  }

  function KeyFor(env: Env, file: string, kind: Host, settings: Settings, folders: seq<string>): string {
    MakeKey(kind, env.rootOf(file, settings, folders), BackendPath(settings, kind))
  }

  function Project(env: Env, text: Text, kind: Host, settings: Settings): Option<Projection>
    requires Sensible(env)
  {
    match env.template(text, kind, settings.schemas)
    case None => None
    case Some(t) => Some(ProjectionOf(t))
  }

  datatype Problem = NoProjection | NotValidated | NotStarted | SendFailed | Disconnected

  function Message(kind: Host, problem: Problem): string {
    KindName(kind) +
    match problem
    case NoProjection => " projection unavailable: incompatible Plato grammar"
    case NotValidated =>
      " validation unavailable for control flow, trimming, generated content, block scalars, or heredocs"
    case NotStarted => " backend unavailable: check the configured executable and stdio startup"
    case SendFailed => " backend disconnected"
    case Disconnected => " backend disconnected; check the configured executable"
  }

  /** What `syncHost` decides to do with a document from one consistent reading of the session. */
  datatype Job = Job(uri: Uri, doc: Document, settings: Settings, folders: seq<string>, epoch: nat, kind: Host, key: string,
                     project: Projection)

  datatype Plan = Skip | Refuse(message: string) | Go(job: Job)

  function PlanSync(env: Env, s: Session, u: Uri): Plan
    requires Sensible(env)
  {
    if u !in s.docs then Skip
    else
      var doc, file := s.docs[u], env.fileOf(u);
      var kind := HostForFile(env, file, doc.text);
      if kind == OtherHost || BackendPath(s.settings, kind) == "" || !env.checked(file, doc.text, s.settings, s.folders)
      then Skip
      else
        match Project(env, doc.text, kind, s.settings)
        case None => Refuse(Message(kind, NoProjection))
        case Some(p) =>
          if !p.safe then Refuse(Message(kind, NotValidated))
          else Go(Job(u, doc, s.settings, s.folders, s.epoch, kind, KeyFor(env, file, kind, s.settings, s.folders), p))
  }

  // ----- critical sections -----

  function Shown(env: Env, s: Session, u: Uri): seq<Diagnostic>
    requires u in s.docs
  {
    env.syntax(env.fileOf(u), s.docs[u].text, s.settings, s.folders) +
    if u in s.host && s.host[u].version == s.docs[u].version then s.host[u].diagnostics else []
  }

  function Publish(env: Env, s: Session, u: Uri): Session
    requires u in s.docs
  {
    s.(log := s.log + [Published(u, s.docs[u].version, Shown(env, s, u))])
  }

  function DidOpen(env: Env, s: Session, u: Uri, text: Text, version: int32): Session {
    Publish(env, s.(docs := s.docs[u := Document(text, version)], host := s.host - {u}, log := s.log + [Opened(u)]), u)
  }

  function LastText(text: Text, changes: seq<Text>): Text {
    if changes == [] then text else changes[|changes|-1]
  }

  predicate Newer(s: Session, u: Uri, version: int32) {
    u in s.docs && version > s.docs[u].version
  }

  function DidChange(env: Env, s: Session, u: Uri, version: int32, changes: seq<Text>): Session {
    if !Newer(s, u, version) then s
    else Publish(env, s.(docs := s.docs[u := Document(LastText(s.docs[u].text, changes), version)], host := s.host - {u}), u)
  }

  function DidSave(env: Env, s: Session, u: Uri): Session {
    if u in s.docs then Publish(env, s, u) else s
  }

  function DidClose(s: Session, u: Uri): Session {
    s.(docs := s.docs - {u}, host := s.host - {u}, log := s.log + [Cleared(u)])
  }

  /** The order in which a loop over a map visits its keys. */
  predicate Visits(order: seq<Uri>, keys: set<Uri>) {
    (forall u | u in keys :: u in order) && (forall i | 0 <= i < |order| :: order[i] in keys) &&
    (forall i, j | 0 <= i < j < |order| :: order[i] != order[j])
  }

  function Republish(env: Env, s: Session, order: seq<Uri>): (r: Session)
    requires forall i | 0 <= i < |order| :: order[i] in s.docs
    ensures r == s.(log := r.log)
    decreases |order|
  {
    if order == [] then s else Republish(env, Publish(env, s, order[0]), order[1..])
  }

  function DidChangeConfiguration(env: Env, s: Session, settings: Settings, order: seq<Uri>): Session
    requires Visits(order, s.docs.Keys)
  {
    Republish(env, s.(settings := settings, epoch := s.epoch + 1, host := map[]), order)
  }

  function RemoveFirst(folders: seq<string>, path: string): seq<string> {
    if folders == [] then []
    else if folders[0] == path then folders[1..]
    else [folders[0]] + RemoveFirst(folders[1..], path)
  }

  function RemoveAll(folders: seq<string>, removed: seq<string>): seq<string>
    decreases |removed|
  {
    if removed == [] then folders else RemoveAll(RemoveFirst(folders, removed[0]), removed[1..])
  }

  function DidChangeWorkspaceFolders(env: Env, s: Session, removed: seq<string>, added: seq<string>, order: seq<Uri>): Session
    requires Visits(order, s.docs.Keys)
  {
    Republish(env, s.(folders := RemoveAll(s.folders, removed) + added, epoch := s.epoch + 1, host := map[]), order)
  }

  /** Mapping a backend's diagnostics, dropping those that cannot be placed. */
  ghost function MapAll(p: Projection, kind: Host, ds: seq<Diagnostic>): seq<Diagnostic> {
    if ds == [] then []
    else MapAll(p, kind, ds[..|ds|-1]) +
         match Mapped(p, ds[|ds|-1])
         case None => []
         case Some(d) => [if d.source == "" then d.(source := KindName(kind)) else d]
  }

  predicate RouteCurrent(s: Session, kind: Host, name: string, version: nat) {
    name in s.routes &&
    var r := s.routes[name];
    r.epoch == s.epoch && r.kind == kind && (version != 0 ==> Wire(r.version) == version) &&
    r.source in s.docs && s.docs[r.source].version == r.version
  }

  ghost function BackendPublish(env: Env, s: Session, kind: Host, name: string, version: nat, ds: seq<Diagnostic>): Session {
    if !RouteCurrent(s, kind, name, version) then s
    else
      var r := s.routes[name];
      Publish(env, s.(host := s.host[r.source := HostResult(r.version, MapAll(r.project, kind, ds))]), r.source)
  }

  function FailureDiagnostic(message: string): Diagnostic {
    Diagnostic(Range(Position(0, 0), Position(0, 0)), "plato-ls", message)
  }

  function HostFailure(env: Env, s: Session, u: Uri, version: int32, message: string): Session {
    if u in s.docs && s.docs[u].version == version
    then Publish(env, s.(host := s.host[u := HostResult(version, [FailureDiagnostic(message)])]), u)
    else s
  }

  predicate Candidate(s: Session, u: Uri, key: string, name: string) {
    name in s.routes && s.routes[name].source == u && s.routes[name].key == key
  }

  predicate StillCurrent(s: Session, job: Job) {
    job.uri in s.docs && s.docs[job.uri].version == job.doc.version && s.epoch == job.epoch
  }

  function JobName(env: Env, job: Job): string {
    VirtualName(env.fileOf(job.uri), job.doc.version, job.kind)
  }

  function JobRoute(job: Job): Route {
    Route(job.uri, job.doc.version, job.epoch, job.kind, job.key, job.project)
  }

  function InstallRoute(env: Env, s: Session, job: Job): Session {
    if !StillCurrent(s, job) then s
    else
      s.(routes := (map n | n in s.routes && !Candidate(s, job.uri, job.key, n) :: s.routes[n])
                   [JobName(env, job) := JobRoute(job)])
  }

  /** `prior` is a route that `InstallRoute` replaces, if there is one. */
  predicate PriorOf(s: Session, u: Uri, key: string, prior: Option<string>) {
    match prior
    case None => forall n | n in s.routes :: !Candidate(s, u, key, n)
    case Some(n) => Candidate(s, u, key, n)
  }

  // ----- sections under syncMu alone -----

  function StartBackend(env: Env, s: Session, job: Job, id: nat, closed: bool): Session {
    var file := env.fileOf(job.uri);
    var p := Process(job.key, job.kind, env.rootOf(file, job.settings, job.folders), BackendPath(job.settings, job.kind),
                     job.settings, map[], closed);
    if closed then s.(processes := s.processes[id := p])
    else s.(processes := s.processes[id := p], backends := s.backends[job.key := id])
  }

  function Stop(s: Session, id: nat): Session
    requires id in s.processes
  {
    s.(processes := s.processes[id := s.processes[id].(closed := true)])
  }

  function SetOpened(s: Session, id: nat, openDocs: map<string, Text>): Session
    requires id in s.processes
  {
    s.(processes := s.processes[id := s.processes[id].(openDocs := openDocs)])
  }

  /** Telling the backend: close the superseded document, then open or change the new one. */
  function SendProjection(env: Env, s: Session, job: Job, id: nat, prior: Option<string>, ok: bool): Session
    requires id in s.processes
  {
    var rest := s.processes[id].openDocs - (if prior.Some? then {prior.value} else {});
    if ok then SetOpened(s, id, rest[JobName(env, job) := job.project.text])
    else
      var failed := HostFailure(env, SetOpened(s, id, rest), job.uri, job.doc.version, Message(job.kind, SendFailed));
      Stop(failed.(backends := failed.backends - {job.key}), id)
  }

  predicate Victim(s: Session, u: Uri, victim: Option<string>) {
    match victim
    case None => forall n | n in s.routes :: s.routes[n].source != u
    case Some(n) => n in s.routes && s.routes[n].source == u
  }

  function CloseHost(s: Session, u: Uri, victim: Option<string>): Session
    requires Victim(s, u, victim)
  {
    if u in s.docs || victim.None? then s
    else
      var key := s.routes[victim.value].key;
      var t := s.(routes := s.routes - {victim.value});
      if key in t.backends && t.backends[key] in t.processes
      then SetOpened(t, t.backends[key], t.processes[t.backends[key]].openDocs - {victim.value})
      else t
  }

  function StopAll(s: Session): Session {
    s.(processes := map id | id in s.processes ::
                      if id in s.backends.Values then s.processes[id].(closed := true) else s.processes[id])
  }

  function Reconfigure(s: Session): Session {
    StopAll(s).(backends := map[], routes := map[])
  }

  function Disconnect(s: Session, key: string, id: nat): Session
    requires id in s.processes
  {
    if key in s.backends && s.backends[key] == id then
      Stop(s.(backends := s.backends - {key}, routes := map n | n in s.routes && s.routes[n].key != key :: s.routes[n]), id)
    else s
  }
}
