/** Exactly which documents are forgotten, after any run. */
module LostDocuments {
  import opened Options
  import opened Freshness
  import opened Sessions
  import opened Protocol
  import opened Invariants
  import opened RouteProofs
  import opened BackendProofs
  import opened Safety
  import opened Attention

  /** No backend serves a lost document, nor is one being sent. */
  ghost predicate LostUnserved(env: Env, w: World, lost: set<Uri>) {
    && PriorGone(env, w)
    && (w.section.Starting? || w.section.Installing? || w.section.Sending? ==> w.section.job.uri !in lost)
    && (Pending(w) || forall n | n in w.s.routes && w.s.routes[n].source in lost :: !Serving(w.s, n))
  }

  /** No route comes to be served. */
  predicate NoneServed(s: Session, t: Session) {
    forall n | n in t.routes && Serving(t, n) :: n in s.routes && s.routes[n].source == t.routes[n].source && Serving(s, n)
  }

  lemma UnservedStays(env: Env, w: World, w': World, lost: set<Uri>, lost': set<Uri>)
    requires LostUnserved(env, w, lost) && lost' <= lost && PriorGone(env, w') && NoneServed(w.s, w'.s) && (Pending(w) ==> Pending(w'))
    requires w'.section.Starting? || w'.section.Installing? || w'.section.Sending? ==> w'.section.job.uri !in lost'
    ensures LostUnserved(env, w', lost')
  {
  }

  lemma EditorUnserved(env: Env, w: World, step: EditorStep, lost: set<Uri>)
    requires LostUnserved(env, w, lost) && EditorMay(w, step)
    ensures LostUnserved(env, DoEditor(env, w, step), lost)
  {
    var w' := DoEditor(env, w, step);
    assert w'.section == w.section && w'.s.routes == w.s.routes && w'.s.backends == w.s.backends && w'.s.processes == w.s.processes;
    UnservedStays(env, w, w', lost, lost);
  }

  lemma ReadUnserved(env: Env, w: World, step: SyncStep, lost: set<Uri>)
    requires Sensible(env) && LostUnserved(env, w, lost) && SyncMay(w, step) && step.ReadDocument?
    ensures LostUnserved(env, DoSync(env, w, step), LostAfter(env, w, Sync(step), lost))
  {
    UnservedStays(env, w, DoReadDocument(env, w, step.uri), lost, lost - {step.uri});
  }

  lemma ReuseUnserved(env: Env, w: World, step: SyncStep, lost: set<Uri>)
    requires Sensible(env) && LostUnserved(env, w, lost) && SyncMay(w, step) && step.ReuseBackend?
    ensures LostUnserved(env, DoSync(env, w, step), LostAfter(env, w, Sync(step), lost))
  {
    UnservedStays(env, w, DoReuseBackend(w), lost, lost);
  }

  lemma StartUnserved(env: Env, w: World, step: SyncStep, lost: set<Uri>)
    requires Sensible(env) && BackendsOk(w) && LostUnserved(env, w, lost) && SyncMay(w, step) && step.StartsBackend?
    ensures LostUnserved(env, DoSync(env, w, step), LostAfter(env, w, Sync(step), lost))
  {
    var w' := DoStartsBackend(env, w, step.id);
    forall n | n in w'.s.routes && Serving(w'.s, n) ensures Serving(w.s, n) {
      assert w.s.routes[n].key in w.s.backends ==> BackendOk(w, w.s.routes[n].key);
    }
    UnservedStays(env, w, w', lost, lost);
  }

  lemma FailedStartUnserved(env: Env, w: World, step: SyncStep, lost: set<Uri>)
    requires Sensible(env) && BackendsOk(w) && LostUnserved(env, w, lost) && SyncMay(w, step) && step.FailsToStart?
    ensures LostUnserved(env, DoSync(env, w, step), LostAfter(env, w, Sync(step), lost))
  {
    var w' := DoFailsToStart(env, w, step.spawned);
    forall n | n in w'.s.routes && Serving(w'.s, n) ensures Serving(w.s, n) {
      assert BackendOk(w, w.s.routes[n].key);
    }
    UnservedStays(env, w, w', lost, lost);
  }

  lemma InstallUnserved(env: Env, w: World, step: SyncStep, lost: set<Uri>)
    requires Sensible(env) && RouteInv(env, w) && LostUnserved(env, w, lost) && SyncMay(w, step) && step.Install?
    ensures LostUnserved(env, DoSync(env, w, step), LostAfter(env, w, Sync(step), lost))
  {
    var w', job := DoInstall(env, w, step.prior), w.section.job;
    InstalledPriorGone(env, w, step.prior);
    if !Pending(w) {
      forall n | n in w'.s.routes && w'.s.routes[n].source in lost + Displaced(env, w.s, job) ensures !Serving(w'.s, n) {
        InstalledUnserved(env, w, step.prior, lost, n);
      }
    }
  }

  lemma InstalledPriorGone(env: Env, w: World, prior: Option<string>)
    requires w.section.Installing? && PriorOf(w.s, w.section.job.uri, w.section.job.key, prior)
    ensures PriorGone(env, DoInstall(env, w, prior))
  {
  }

  lemma InstalledUnserved(env: Env, w: World, prior: Option<string>, lost: set<Uri>, n: string)
    requires Sensible(env) && RouteInv(env, w) && LostUnserved(env, w, lost) && w.section.Installing? && !Pending(w)
    requires var t := DoInstall(env, w, prior).s; n in t.routes && t.routes[n].source in lost + Displaced(env, w.s, w.section.job)
    ensures !Serving(DoInstall(env, w, prior).s, n)
  {
    var job := w.section.job;
    if StillCurrent(w.s, job) && n != JobName(env, job) && w.s.routes[n].source in Displaced(env, w.s, job) {
      OneRoute(env, w, n, JobName(env, job));
    }
  }

  lemma SendUnserved(env: Env, w: World, step: SyncStep, lost: set<Uri>)
    requires Sensible(env) && Inv(env, w) && LostUnserved(env, w, lost) && SyncMay(w, step) && step.Send?
    ensures LostUnserved(env, DoSync(env, w, step), LostAfter(env, w, Sync(step), lost))
  {
    if step.ok { SentUnserved(env, w, lost); } else { UnsentUnserved(env, w, lost); }
  }

  lemma SentUnserved(env: Env, w: World, lost: set<Uri>)
    requires Sensible(env) && SectionOk(env, w) && LostUnserved(env, w, lost) && w.section.Sending? && w.section.id in w.s.processes
    ensures LostUnserved(env, DoSend(env, w, true), lost)
  {
  }

  lemma UnsentUnserved(env: Env, w: World, lost: set<Uri>)
    requires Sensible(env) && Inv(env, w) && LostUnserved(env, w, lost) && w.section.Sending? && w.section.id in w.s.processes
    ensures LostUnserved(env, DoSend(env, w, false), lost + Bystanders(w.s, w.section.job))
  {
    var w', job := DoSend(env, w, false), w.section.job;
    if !Pending(w) {
      forall n | n in w'.s.routes && w'.s.routes[n].source in lost + Bystanders(w.s, job) ensures !Serving(w'.s, n) {
        StruckUnserved(env, w, lost, n);
      }
    }
  }

  lemma StruckUnserved(env: Env, w: World, lost: set<Uri>, n: string)
    requires Sensible(env) && Inv(env, w) && LostUnserved(env, w, lost) && w.section.Sending? && w.section.id in w.s.processes
    requires !Pending(w) && n in w.s.routes && w.s.routes[n].source in lost + Bystanders(w.s, w.section.job)
    ensures !Serving(DoSend(env, w, false).s, n)
  {
    FailedSend(env, w);
    if w.s.routes[n].source in Bystanders(w.s, w.section.job) {
      var m :| m in w.s.routes && w.s.routes[m].key == w.section.job.key && w.s.routes[m].source == w.s.routes[n].source;
      OneRoute(env, w, n, m);
    }
  }

  lemma ShowsUnserved(env: Env, w: World, w': World, lost: set<Uri>)
    requires LostUnserved(env, w, lost) && OnlyShows(w, w')
    ensures LostUnserved(env, w', lost)
  {
    UnservedStays(env, w, w', lost, lost);
  }

  lemma ReportUnserved(env: Env, w: World, step: SyncStep, lost: set<Uri>)
    requires Sensible(env) && LostUnserved(env, w, lost) && SyncMay(w, step) && step.ReportFailure?
    ensures LostUnserved(env, DoSync(env, w, step), LostAfter(env, w, Sync(step), lost))
  {
    FailureShows(env, w);
    ShowsUnserved(env, w, DoReportFailure(env, w), lost);
  }

  lemma SyncUnserved(env: Env, w: World, step: SyncStep, lost: set<Uri>)
    requires Sensible(env) && Inv(env, w) && LostUnserved(env, w, lost) && SyncMay(w, step)
    ensures LostUnserved(env, DoSync(env, w, step), LostAfter(env, w, Sync(step), lost))
  {
    match step
    case ReadDocument(_) => ReadUnserved(env, w, step, lost);
    case ReuseBackend => ReuseUnserved(env, w, step, lost);
    case StartsBackend(_) => StartUnserved(env, w, step, lost);
    case FailsToStart(_) => FailedStartUnserved(env, w, step, lost);
    case Install(_) => InstallUnserved(env, w, step, lost);
    case Send(_) => SendUnserved(env, w, step, lost);
    case ReportFailure => ReportUnserved(env, w, step, lost);
  }

  lemma OtherShowsUnserved(env: Env, w: World, step: OtherStep, lost: set<Uri>)
    requires LostUnserved(env, w, lost) && OtherMay(w, step) && (step.BackendPublishes? || step.ReportsFailure?)
    ensures LostUnserved(env, DoOther(env, w, step), LostAfter(env, w, Other(step), lost))
  {
    match step
    case BackendPublishes(kind, name, version, ds) =>
      PublishShows(env, w, kind, name, version, ds);
      ShowsUnserved(env, w, DoBackendPublishes(env, w, kind, name, version, ds), lost);
    case ReportsFailure(u, version, message) =>
      ReportShows(env, w, u, version, message);
      ShowsUnserved(env, w, DoReportsFailure(env, w, u, version, message), lost);
  }

  lemma CloseHostUnserved(env: Env, w: World, step: OtherStep, lost: set<Uri>)
    requires LostUnserved(env, w, lost) && OtherMay(w, step) && step.ClosesHost?
    ensures LostUnserved(env, DoOther(env, w, step), LostAfter(env, w, Other(step), lost))
  {
    UnservedStays(env, w, DoClosesHost(w, step.uri, step.victim), lost, lost);
  }

  lemma ReconfigureUnserved(env: Env, w: World, step: OtherStep, lost: set<Uri>)
    requires LostUnserved(env, w, lost) && OtherMay(w, step) && step.Reconfigures?
    ensures LostUnserved(env, DoOther(env, w, step), LostAfter(env, w, Other(step), lost))
  {
  }

  lemma DisconnectUnserved(env: Env, w: World, step: OtherStep, lost: set<Uri>)
    requires LostUnserved(env, w, lost) && OtherMay(w, step) && step.Disconnects?
    ensures LostUnserved(env, DoOther(env, w, step), LostAfter(env, w, Other(step), lost))
  {
    UnservedStays(env, w, DoDisconnects(w, step.key, step.id), lost, lost);
  }

  lemma StopWatchUnserved(env: Env, w: World, step: OtherStep, lost: set<Uri>)
    requires LostUnserved(env, w, lost) && OtherMay(w, step) && step.StopsWatching?
    ensures LostUnserved(env, DoOther(env, w, step), LostAfter(env, w, Other(step), lost))
  {
    UnservedStays(env, w, Finish(w, WatchTask(step.key, step.id)), lost, lost);
  }

  lemma ShutdownUnserved(env: Env, w: World, step: OtherStep, lost: set<Uri>)
    requires LostUnserved(env, w, lost) && OtherMay(w, step) && step.ClosesBackends?
    ensures LostUnserved(env, DoOther(env, w, step), LostAfter(env, w, Other(step), lost))
  {
  }

  lemma OtherUnserved(env: Env, w: World, step: OtherStep, lost: set<Uri>)
    requires LostUnserved(env, w, lost) && OtherMay(w, step)
    ensures LostUnserved(env, DoOther(env, w, step), LostAfter(env, w, Other(step), lost))
  {
    match step
    case BackendPublishes(_, _, _, _) => OtherShowsUnserved(env, w, step, lost);
    case ClosesHost(_, _) => CloseHostUnserved(env, w, step, lost);
    case Reconfigures => ReconfigureUnserved(env, w, step, lost);
    case Disconnects(_, _) => DisconnectUnserved(env, w, step, lost);
    case StopsWatching(_, _) => StopWatchUnserved(env, w, step, lost);
    case ReportsFailure(_, _, _) => OtherShowsUnserved(env, w, step, lost);
    case ClosesBackends => ShutdownUnserved(env, w, step, lost);
  }

  // ----- every run -----

  ghost predicate Tracked(env: Env, w: World, lost: set<Uri>)
    requires Sensible(env)
  {
    Good(env, w) && AllCared(env, w, lost) && LostUnserved(env, w, lost)
  }

  lemma TrackedStep(env: Env, w: World, step: Step, lost: set<Uri>)
    requires Sensible(env) && Tracked(env, w, lost) && Enabled(w, step)
    ensures Tracked(env, Do(env, w, step), LostAfter(env, w, step, lost))
  {
    GoodStep(env, w, step);
    match step
    case Editor(e) => EditorCares(env, w, e, lost); EditorUnserved(env, w, e, lost);
    case Sync(y) => SyncCares(env, w, y, lost); SyncUnserved(env, w, y, lost);
    case Other(o) => OtherCares(env, w, o, lost); OtherUnserved(env, w, o, lost);
  }

  lemma {:induction false} TrackedRun(env: Env, w: World, steps: seq<Step>, w': World, lost: set<Uri>)
    requires Sensible(env) && Tracked(env, w, lost) && Run(env, w, steps, w')
    ensures Tracked(env, w', Lost(env, w, steps, w', lost))
    decreases |steps|
  {
    if steps != [] {
      TrackedStep(env, w, steps[0], lost);
      TrackedRun(env, Do(env, w, steps[0]), steps[1..], w', LostAfter(env, w, steps[0], lost));
    }
  }

  /** There is neither work in progress for the document nor a result for it, although it is meant for a backend. */
  ghost predicate Waiting(env: Env, w: World, u: Uri)
    requires Sensible(env) && u in w.s.docs
  {
    && SyncHostTask(u) !in w.tasks && !Pending(w) && !FailureComing(w, u) && !Concerned(w, u)
    && !Answered(w.s, u) && !Exempt(env, w.s, u)
  }

  /** After every run, whatever the documents and files: a document that waits for its result has a backend with its current
      version open exactly unless it was struck by a failed send for another document of the same backend, by another document of
      the same file, or by the final shutdown, and has not been read since. */
  lemma ForgottenExactly(env: Env, w0: World, steps: seq<Step>, w: World, u: Uri)
    requires Sensible(env) && Initial(w0) && Run(env, w0, steps, w) && u in w.s.docs
    ensures Attended(env, w, u) || u in Lost(env, w0, steps, w, {})
    ensures Waiting(env, w, u) ==> (Served(w.s, u) <==> u !in Lost(env, w0, steps, w, {}))
  {
    TrackedRun(env, w0, steps, w, {});
  }

  /** A step that strikes nobody: no failed send, no shutdown, and no route taken over. */
  predicate Harmless(env: Env, w: World, step: Step) {
    step != Sync(Send(false)) && step != Other(ClosesBackends) &&
    (step.Sync? && step.sync.Install? && w.section.Installing? ==> Displaced(env, w.s, w.section.job) == {})
  }

  ghost predicate AllHarmless(env: Env, w: World, steps: seq<Step>, w': World)
    requires Sensible(env) && Run(env, w, steps, w')
    decreases |steps|
  {
    steps == [] || (Harmless(env, w, steps[0]) && AllHarmless(env, Do(env, w, steps[0]), steps[1..], w'))
  }

  lemma {:induction false} NoneLost(env: Env, w: World, steps: seq<Step>, w': World)
    requires Sensible(env) && Run(env, w, steps, w') && AllHarmless(env, w, steps, w')
    ensures Lost(env, w, steps, w', {}) == {}
    decreases |steps|
  {
    if steps != [] {
      assert LostAfter(env, w, steps[0], {}) == {};
      NoneLost(env, Do(env, w, steps[0]), steps[1..], w');
    }
  }

  /** And so no document is forgotten in a run without such steps: each has work in progress, or a backend that has its current
      version open, or a result, or is not meant for a backend. Once nothing is left to do but to watch backends, one of the last
      three holds. */
  lemma NoDocumentForgotten(env: Env, w0: World, steps: seq<Step>, w: World, u: Uri)
    requires Sensible(env) && Initial(w0) && Run(env, w0, steps, w) && AllHarmless(env, w0, steps, w) && u in w.s.docs
    ensures Attended(env, w, u)
    ensures (forall task | task in w.tasks :: task.WatchTask?) && w.section.Free? ==>
              Served(w.s, u) || Answered(w.s, u) || Exempt(env, w.s, u)
  {
    ForgottenExactly(env, w0, steps, w, u);
    NoneLost(env, w0, steps, w);
  }

  // ----- what it means to be served or answered -----

  /** A backend that serves a document runs the executable set for its language, in its workspace root, with the current settings,
      and has open under the document's name exactly the projection of the text the document has now, which is a safe one. */
  lemma ServedFromCurrentText(env: Env, w: World, u: Uri, name: string)
    requires Sensible(env) && Reachable(env, w) && Functional(w.named) && !Pending(w)
    requires u in w.s.docs && IsServedBy(w.s, u, name)
    ensures var kind := FixedKind(env, env.fileOf(u));
            var p := Project(env, w.s.docs[u].text, kind, w.s.settings);
            var backend := w.s.processes[w.s.backends[w.s.routes[name].key]];
            && name == VirtualName(env.fileOf(u), w.s.docs[u].version, kind)
            && p.Some? && p.value.safe && backend.openDocs[name] == p.value.text
            && !backend.closed && backend.kind == kind && backend.settings == w.s.settings
            && backend.root == env.rootOf(env.fileOf(u), w.s.settings, w.s.folders)
            && backend.path == if kind.Yaml? then w.s.settings.yamlBackend else w.s.settings.bashBackend
  {
    ReachableGood(env, w);
    CurrentRouteIsFresh(env, w, name);
    RouteServedByItsOwn(env, w, name);
    ReconfigurationComplete(env, w);
  }

  /** A document that is meant for a backend but whose text has no safe projection is sent to none: once nothing is left to do, the
      one diagnostic behind its own is a notice of failure. */
  lemma UnmappableIsReported(env: Env, w0: World, steps: seq<Step>, w: World, u: Uri)
    requires Sensible(env) && Initial(w0) && Run(env, w0, steps, w) && AllHarmless(env, w0, steps, w) && u in w.s.docs
    requires Functional(w.named) && (forall task | task in w.tasks :: task.WatchTask?) && w.section.Free?
    requires !Exempt(env, w.s, u)
    requires var p := Project(env, w.s.docs[u].text, FixedKind(env, env.fileOf(u)), w.s.settings); p.None? || !p.value.safe
    ensures !Served(w.s, u) && u in w.s.host && w.s.host[u].version == w.s.docs[u].version && IsFailure(w.s.host[u].diagnostics)
  {
    NoDocumentForgotten(env, w0, steps, w, u);
    ReachableGood(env, w);
    assert FreshAt(env, w.s, w.heard, u);
  }
}
