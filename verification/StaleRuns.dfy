/** Why the freshness of host results needs versions not to be reused: a document closed and reopened with the same version
    number and another text, before its old route is removed, is answered from the old text. */
module StaleRuns {
  import opened Options
  import opened Regions
  import opened Projections
  import opened Sessions
  import opened Protocol

  function Start(settings: Settings, folders: seq<string>): World {
    World(Session(map[], map[], settings, folders, 0, map[], map[], map[], []), Free, multiset{}, {}, {})
  }

  /** What `syncHost` makes of a document that was just opened. */
  function FirstPlan(env: Env, settings: Settings, folders: seq<string>, u: Uri, doc: Document): Plan
    requires Sensible(env)
  {
    PlanSync(env, Start(settings, folders).s.(docs := map[u := doc]), u)
  }

  lemma PlanOfText(env: Env, settings: Settings, folders: seq<string>, u: Uri, doc: Document)
    requires Sensible(env) && FirstPlan(env, settings, folders, u, doc).Go?
    ensures var job := FirstPlan(env, settings, folders, u, doc).job;
            job.uri == u && job.doc == doc && job.epoch == 0 && job.kind != OtherHost && job.project.source == doc.text
  {
  }

  /** The document is opened and read by `syncHost`. */
  lemma Read(env: Env, settings: Settings, folders: seq<string>, u: Uri, doc: Document) returns (w: World)
    requires Sensible(env) && FirstPlan(env, settings, folders, u, doc).Go?
    ensures Reachable(env, w) && w.section == Starting(FirstPlan(env, settings, folders, u, doc).job)
    ensures w.s.docs == map[u := doc] && w.s.epoch == 0 && w.s.routes == map[] && w.s.backends == map[] && w.s.processes == map[]
    ensures w.s.settings == settings && w.s.folders == folders && w.s.host == map[] && w.tasks == multiset{}
    ensures Named(u, doc.version, doc.text) in w.named
  {
    var w0 := Start(settings, folders);
    assert Initial(w0) && Run(env, w0, [], w0);
    ReachableStep(env, w0, Editor(Open(u, doc.text, doc.version)));
    var w1 := DoOpen(env, w0, u, doc.text, doc.version);
    ReachableStep(env, w1, Sync(ReadDocument(u)));
    w := DoReadDocument(env, w1, u);
  }

  /** A backend is started for it and its route is installed. */
  lemma Routed(env: Env, settings: Settings, folders: seq<string>, u: Uri, doc: Document) returns (w: World)
    requires Sensible(env) && FirstPlan(env, settings, folders, u, doc).Go?
    ensures Reachable(env, w) && w.s.docs == map[u := doc] && w.s.epoch == 0
    ensures var job := FirstPlan(env, settings, folders, u, doc).job; w.s.routes == map[JobName(env, job) := JobRoute(job)]
    ensures var job := FirstPlan(env, settings, folders, u, doc).job;
            w.section == Sending(job, 0, None) && w.s.backends == map[job.key := 0] &&
            0 in w.s.processes && !w.s.processes[0].closed && w.tasks == multiset{WatchTask(job.key, 0)}
    ensures w.s.settings == settings && w.s.folders == folders && w.s.host == map[]
    ensures Named(u, doc.version, doc.text) in w.named
  {
    PlanOfText(env, settings, folders, u, doc);
    w := Read(env, settings, folders, u, doc);
    ReachableStep(env, w, Sync(StartsBackend(0)));
    w := DoStartsBackend(env, w, 0);
    ReachableStep(env, w, Sync(Install(None)));
    w := DoInstall(env, w, None);
  }

  /** For every document that is sent to a backend, and for every other text: closing and reopening it with that text and the
      same version leads to a reachable state whose current route was built from the text the document no longer has, so that
      whatever a backend then reports under its name is shown for the new text. */
  lemma ReusedVersionGoesStale(env: Env, settings: Settings, folders: seq<string>, u: Uri, version: int32, old': Text, now: Text)
    returns (w: World, name: string)
    requires Sensible(env) && FirstPlan(env, settings, folders, u, Document(old', version)).Go? && old' != now
    ensures Reachable(env, w) && Named(u, version, old') in w.named && Named(u, version, now) in w.named
    ensures w.s.docs == map[u := Document(now, version)]
    ensures name in w.s.routes && RouteCurrent(w.s, w.s.routes[name].kind, name, 0)
    ensures w.s.routes[name].source == u && w.s.routes[name].project.source == old'
  {
    var doc := Document(old', version);
    PlanOfText(env, settings, folders, u, doc);
    name := JobName(env, FirstPlan(env, settings, folders, u, doc).job);
    w := Routed(env, settings, folders, u, doc);
    ReachableStep(env, w, Editor(Close(u)));
    w := DoClose(w, u);
    ReachableStep(env, w, Editor(Open(u, now, version)));
    w := DoOpen(env, w, u, now, version);
  }

  // ----- such documents exist -----

  /** Everything is YAML, eligible, free of template actions and of syntax errors. */
  function PlainEnv(): Env {
    Env(u => u, _ => Yaml, _ => false, (_, _, _) => "/", (_, _, _, _) => true, (_, _, _, _) => [],
        (text, host, _) => Some(Template(text, host, [Span(0, |text|)], false, false, [])))
  }

  lemma PlainIsSensible()
    ensures Sensible(PlainEnv())
  {
    forall text, host, schemas
      ensures var t := PlainEnv().template(text, host, schemas);
              t.Some? ==> ValidTemplate(t.value) && t.value.source == text && t.value.host == host
    {
      assert Sorted([Span(0, |text|)], 0, |text|);
    }
  }

  lemma PlainIsSent(u: Uri, doc: Document)
    ensures Sensible(PlainEnv()) && FirstPlan(PlainEnv(), Settings("yamlls", "", {}, ""), [], u, doc).Go?
  {
    PlainIsSensible();
    var n := |doc.text|;
    var t := Template(doc.text, Yaml, [Span(0, n)], false, false, []);
    assert Gaps([Span(0, n)], 0, n) == [] + Gaps([], n, n);
    assert Actions(t) == [];
  }
}
