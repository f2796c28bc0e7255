/** Runs in which an open document is forgotten. */
module ForgottenRuns {
  import opened Options
  import opened Sessions
  import opened Names
  import opened Protocol
  import opened Attention
  import opened StaleRuns

  /** Nothing is left to do but to watch the one backend, and one document has a route to it. */
  ghost predicate Settled(w: World, settings: Settings, folders: seq<string>, job: Job, name: string) {
    && w.s.epoch == 0 && w.s.settings == settings && w.s.folders == folders && w.s.host == map[]
    && w.s.routes == map[name := JobRoute(job)] && w.s.backends == map[job.key := 0] && 0 in w.s.processes
    && w.tasks == multiset{WatchTask(job.key, 0)}
  }

  /** Two documents are sent to the same backend. */
  ghost predicate ShareBackend(env: Env, settings: Settings, folders: seq<string>, u: Uri, doc: Document, v: Uri, other: Document) {
    && Sensible(env) && u != v
    && FirstPlan(env, settings, folders, u, doc).Go? && FirstPlan(env, settings, folders, v, other).Go?
    && FirstPlan(env, settings, folders, u, doc).job.key == FirstPlan(env, settings, folders, v, other).job.key
  }

  lemma FirstSent(env: Env, settings: Settings, folders: seq<string>, u: Uri, doc: Document) returns (w: World)
    requires Sensible(env) && FirstPlan(env, settings, folders, u, doc).Go?
    ensures var job := FirstPlan(env, settings, folders, u, doc).job;
            Reachable(env, w) && Settled(w, settings, folders, job, JobName(env, job)) && w.section.Free?
    ensures w.s.docs == map[u := doc]
  {
    PlanOfText(env, settings, folders, u, doc);
    w := Routed(env, settings, folders, u, doc);
    ReachableStep(env, w, Sync(Send(true)));
    w := DoSend(env, w, true);
  }

  /** A second document is read. */
  lemma SecondRead(env: Env, settings: Settings, folders: seq<string>, u: Uri, doc: Document, v: Uri, other: Document)
    returns (w: World)
    requires ShareBackend(env, settings, folders, u, doc, v, other)
    ensures var job := FirstPlan(env, settings, folders, u, doc).job;
            Reachable(env, w) && Settled(w, settings, folders, job, JobName(env, job))
    ensures w.section == Starting(FirstPlan(env, settings, folders, v, other).job) && w.s.docs == map[u := doc, v := other]
  {
    w := FirstSent(env, settings, folders, u, doc);
    ReachableStep(env, w, Editor(Open(v, other.text, other.version)));
    w := DoOpen(env, w, v, other.text, other.version);
    assert PlanSync(env, w.s, v) == FirstPlan(env, settings, folders, v, other);
    ReachableStep(env, w, Sync(ReadDocument(v)));
    w := DoReadDocument(env, w, v);
  }

  lemma SecondReady(env: Env, settings: Settings, folders: seq<string>, u: Uri, doc: Document, v: Uri, other: Document)
    returns (w: World)
    requires ShareBackend(env, settings, folders, u, doc, v, other)
    ensures var job := FirstPlan(env, settings, folders, u, doc).job;
            Reachable(env, w) && Settled(w, settings, folders, job, JobName(env, job))
    ensures w.section == Installing(FirstPlan(env, settings, folders, v, other).job, 0) && w.s.docs == map[u := doc, v := other]
  {
    w := SecondRead(env, settings, folders, u, doc, v, other);
    ReachableStep(env, w, Sync(ReuseBackend));
    w := DoReuseBackend(w);
  }

  lemma RouteAdded(env: Env, settings: Settings, folders: seq<string>, w: World, job: Job, next: Job)
    requires Settled(w, settings, folders, job, JobName(env, job)) && w.section == Installing(next, 0)
    requires StillCurrent(w.s, next) && next.uri != job.uri
    ensures PriorOf(w.s, next.uri, next.key, None)
    ensures var w' := DoInstall(env, w, None);
            && w'.s == w.s.(routes := w'.s.routes) && w'.tasks == w.tasks && w'.section == Sending(next, 0, None)
            && w'.s.routes == map[JobName(env, job) := JobRoute(job)][JobName(env, next) := JobRoute(next)]
  {
  }

  /** Its route is installed beside the first, or in its place if both have one name. */
  lemma SecondInstalled(env: Env, settings: Settings, folders: seq<string>, u: Uri, doc: Document, v: Uri, other: Document)
    returns (w: World)
    requires ShareBackend(env, settings, folders, u, doc, v, other)
    ensures Reachable(env, w) && w.s.docs == map[u := doc, v := other]
    ensures w.s.epoch == 0 && w.s.settings == settings && w.s.folders == folders && w.s.host == map[]
    ensures var job, next := FirstPlan(env, settings, folders, u, doc).job, FirstPlan(env, settings, folders, v, other).job;
            && w.section == Sending(next, 0, None) && w.s.backends == map[next.key := 0] && 0 in w.s.processes
            && w.s.routes == map[JobName(env, job) := JobRoute(job)][JobName(env, next) := JobRoute(next)]
            && w.tasks == multiset{WatchTask(next.key, 0)}
  {
    PlanOfText(env, settings, folders, u, doc);
    PlanOfText(env, settings, folders, v, other);
    w := SecondReady(env, settings, folders, u, doc, v, other);
    RouteAdded(env, settings, folders, w, FirstPlan(env, settings, folders, u, doc).job,
               FirstPlan(env, settings, folders, v, other).job);
    ReachableStep(env, w, Sync(Install(None)));
    w := DoInstall(env, w, None);
  }

  lemma SendFails(env: Env, w: World)
    requires w.section.Sending? && w.section.id in w.s.processes && w.s.backends == map[w.section.job.key := w.section.id]
    ensures var w' := DoSend(env, w, false);
            && w'.section.Free? && w'.tasks == w.tasks && w'.s.backends == map[] && w'.s.routes == w.s.routes && w'.s.docs == w.s.docs
            && w'.s.epoch == w.s.epoch && w'.s.settings == w.s.settings && w'.s.folders == w.s.folders
            && forall u | u in w'.s.host && u != w.section.job.uri :: u in w.s.host
  {
  }

  lemma NothingLeft(env: Env, w: World, u: Uri)
    requires Sensible(env) && u in w.s.docs && PlanSync(env, w.s, u).Go?
    requires w.section.Free? && w.s.backends == map[] && u !in w.s.host && forall task | task in w.tasks :: task.WatchTask?
    ensures !Attended(env, w, u)
  {
  }

  lemma OtherName(env: Env, settings: Settings, folders: seq<string>, u: Uri, doc: Document, v: Uri, other: Document)
    requires ShareBackend(env, settings, folders, u, doc, v, other) && env.fileOf(u) != env.fileOf(v)
    ensures JobName(env, FirstPlan(env, settings, folders, u, doc).job) != JobName(env, FirstPlan(env, settings, folders, v, other).job)
  {
    PlanOfText(env, settings, folders, u, doc);
    PlanOfText(env, settings, folders, v, other);
    var job, next := FirstPlan(env, settings, folders, u, doc).job, FirstPlan(env, settings, folders, v, other).job;
    if JobName(env, job) == JobName(env, next) {
      VirtualNameInjective(env.fileOf(u), doc.version, job.kind, env.fileOf(v), other.version, next.kind);
    }
  }

  /** A document whose backend is stopped when the sending of another document to it fails: the first still has its route and
      shows nothing, nothing is pending for it, and no backend is left. */
  lemma FailedSendForgets(env: Env, settings: Settings, folders: seq<string>, u: Uri, doc: Document, v: Uri, other: Document)
    returns (w: World)
    requires ShareBackend(env, settings, folders, u, doc, v, other) && env.fileOf(u) != env.fileOf(v)
    ensures Reachable(env, w) && u in w.s.docs && !Attended(env, w, u)
    ensures w.section.Free? && w.s.backends == map[] && forall task | task in w.tasks :: task.WatchTask?
    ensures var job := FirstPlan(env, settings, folders, u, doc).job;
            JobName(env, job) in w.s.routes && w.s.routes[JobName(env, job)] == JobRoute(job)
  {
    OtherName(env, settings, folders, u, doc, v, other);
    w := SecondInstalled(env, settings, folders, u, doc, v, other);
    PlanOfText(env, settings, folders, v, other);
    ReachableStep(env, w, Sync(Send(false)));
    SendFails(env, w);
    w := DoSend(env, w, false);
    assert PlanSync(env, w.s, u).Go?;
    NothingLeft(env, w, u);
  }

  /** Of two documents of one file, opened with the same text and version, the second takes over the route of the first. */
  lemma SharedFileForgets(env: Env, settings: Settings, folders: seq<string>, u: Uri, v: Uri, doc: Document) returns (w: World)
    requires Sensible(env) && u != v && env.fileOf(u) == env.fileOf(v) && FirstPlan(env, settings, folders, u, doc).Go?
    ensures Reachable(env, w) && u in w.s.docs && !Attended(env, w, u)
  {
    PlanOfText(env, settings, folders, u, doc);
    assert FirstPlan(env, settings, folders, v, doc) == Go(FirstPlan(env, settings, folders, u, doc).job.(uri := v));
    w := SecondInstalled(env, settings, folders, u, doc, v, doc);
    assert PlanSync(env, w.s, u).Go?;
  }

  /** Such documents exist: where everything is eligible YAML, any two documents of a version share a backend, and a failed send
      of the second forgets the first. */
  lemma SomeRunForgets(u: Uri, v: Uri, doc: Document, other: Document)
    requires u != v
    ensures Sensible(PlainEnv()) && exists w :: Reachable(PlainEnv(), w) && u in w.s.docs && !Attended(PlainEnv(), w, u)
  {
    var settings := Settings("yamlls", "", {}, "");
    PlainIsSent(u, doc);
    PlainIsSent(v, other);
    var w := FailedSendForgets(PlainEnv(), settings, [], u, doc, v, other);
  }
}
