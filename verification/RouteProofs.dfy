/** Every step keeps what is said of documents, routes and the running section. */
module RouteProofs {
  import opened Options
  import opened Sessions
  import opened Protocol
  import opened Invariants

  /** Everything that routes depend on is as before, except that texts were named and work was added. */
  predicate SameRoutes(w: World, w': World) {
    var s, t := w.s, w'.s;
    t.settings == s.settings && t.folders == s.folders && t.epoch == s.epoch && t.routes == s.routes &&
    s.docs.Keys <= t.docs.Keys && w.named <= w'.named &&
    (forall task | task in w.tasks && (task.ReconfigureTask? || task.CloseHostTask?) :: task in w'.tasks)
  }

  lemma SameRoutesKeep(env: Env, w: World, w': World)
    requires Sensible(env) && RoutesOk(env, w) && RoutesUnique(w.s) && SameRoutes(w, w')
    requires DocsNamed(w') && SectionOk(env, w')
    ensures RouteInv(env, w')
  {
    forall n | n in w'.s.routes ensures RouteOk(env, w', n) {
      RouteCarriesOver(env, w, w', n);
    }
  }

  lemma RouteCarriesOver(env: Env, w: World, w': World, n: string)
    requires Sensible(env) && n in w.s.routes && RouteOk(env, w, n)
    requires w'.s.settings == w.s.settings && w'.s.folders == w.s.folders && w'.s.epoch == w.s.epoch && w.named <= w'.named
    requires n in w'.s.routes && w'.s.routes[n] == w.s.routes[n]
    requires Pending(w) ==> Pending(w')
    requires w.s.routes[n].source !in w'.s.docs ==> CloseHostTask(w.s.routes[n].source) in w'.tasks || Pending(w')
    ensures RouteOk(env, w', n)
  {
    var r := w.s.routes[n];
    if r.epoch == w.s.epoch {
      var text :| BuiltFrom(env, w, r, text);
      assert BuiltFrom(env, w', r, text);
    }
  }

  lemma JobCarriesOver(env: Env, w: World, w': World)
    requires Sensible(env) && SectionOk(env, w) && SameRoutes(w, w') && w'.section == w.section
    requires forall key | key in w.s.backends :: key in w'.s.backends && w'.s.backends[key] == w.s.backends[key]
    ensures SectionOk(env, w')
  {
  }

  lemma OpenKeeps(env: Env, w: World, u: Uri, text: Text, version: int32)
    requires Sensible(env) && RouteInv(env, w)
    ensures RouteInv(env, DoOpen(env, w, u, text, version))
  {
    var w' := DoOpen(env, w, u, text, version);
    JobCarriesOver(env, w, w');
    SameRoutesKeep(env, w, w');
  }

  lemma ChangeKeeps(env: Env, w: World, u: Uri, version: int32, changes: seq<Text>)
    requires Sensible(env) && RouteInv(env, w)
    ensures RouteInv(env, DoChange(env, w, u, version, changes))
  {
    var w' := DoChange(env, w, u, version, changes);
    JobCarriesOver(env, w, w');
    SameRoutesKeep(env, w, w');
  }

  /** Steps that only publish, or only touch processes. */
  lemma QuietKeeps(env: Env, w: World, w': World)
    requires Sensible(env) && RouteInv(env, w) && SameRoutes(w, w') && w'.s.docs == w.s.docs && w'.named == w.named
    requires w'.section.Free? || w'.section.Failing? ||
             (w'.section == w.section && w'.s.backends == w.s.backends)
    ensures RouteInv(env, w')
  {
    SameRoutesKeep(env, w, w');
  }

  lemma CloseKeeps(env: Env, w: World, u: Uri)
    requires Sensible(env) && RouteInv(env, w)
    ensures RouteInv(env, DoClose(w, u))
  {
    var w' := DoClose(w, u);
    forall n | n in w'.s.routes ensures RouteOk(env, w', n) {
      assert RouteOk(env, w, n);
      RouteCarriesOver(env, w, w', n);
    }
  }

  /** A new epoch leaves everything to the reconfiguration it spawns. */
  lemma BumpKeeps(env: Env, w: World, w': World)
    requires Sensible(env) && RouteInv(env, w)
    requires w'.s.epoch == w.s.epoch + 1 && w'.s.docs == w.s.docs && w'.s.routes == w.s.routes &&
             w'.s.backends == w.s.backends && w'.named == w.named && w'.section == w.section && Pending(w')
    ensures RouteInv(env, w')
  {
    forall n | n in w'.s.routes ensures RouteOk(env, w', n) {
      assert RouteOk(env, w, n);
    }
  }

  lemma ReadKeeps(env: Env, w: World, u: Uri)
    requires Sensible(env) && RouteInv(env, w) && w.section.Free?
    ensures RouteInv(env, DoReadDocument(env, w, u))
  {
    SameRoutesKeep(env, w, DoReadDocument(env, w, u));
  }

  lemma ReuseKeeps(env: Env, w: World)
    requires Sensible(env) && RouteInv(env, w) && w.section.Starting? && w.section.job.key in w.s.backends
    ensures RouteInv(env, DoReuseBackend(w))
  {
    SameRoutesKeep(env, w, DoReuseBackend(w));
  }

  lemma StartKeeps(env: Env, w: World, id: nat)
    requires Sensible(env) && RouteInv(env, w) && w.section.Starting?
    ensures RouteInv(env, DoStartsBackend(env, w, id))
  {
    SameRoutesKeep(env, w, DoStartsBackend(env, w, id));
  }

  // ----- steps that change routes -----

  lemma InstallKeeps(env: Env, w: World, prior: Option<string>)
    requires Sensible(env) && RouteInv(env, w) && w.section.Installing?
    ensures RouteInv(env, DoInstall(env, w, prior))
  {
    var w' := DoInstall(env, w, prior);
    var job := w.section.job;
    if StillCurrent(w.s, job) {
      forall n | n in w'.s.routes ensures RouteOk(env, w', n) {
        if n == JobName(env, job) {
          assert BuiltFrom(env, w', JobRoute(job), job.doc.text);
        } else {
          assert RouteOk(env, w, n);
          RouteCarriesOver(env, w, w', n);
        }
      }
      InstallUnique(env, w.s, job);
    } else {
      SameRoutesKeep(env, w, w');
    }
  }

  lemma InstallUnique(env: Env, s: Session, job: Job)
    requires RoutesUnique(s)
    ensures RoutesUnique(InstallRoute(env, s, job))
  {
  }

  /** In one epoch a document has one backend key, so with no reconfiguration pending it has one route. */
  lemma OneRoute(env: Env, w: World, m: string, n: string)
    requires Sensible(env) && RoutesOk(env, w) && RoutesUnique(w.s) && !Pending(w)
    requires m in w.s.routes && n in w.s.routes && w.s.routes[m].source == w.s.routes[n].source
    ensures m == n
  {
    assert RouteOk(env, w, m) && RouteOk(env, w, n);
  }

  lemma OneRouteLeft(env: Env, w: World, n: string, u: Uri, victim: Option<string>)
    requires Sensible(env) && RoutesOk(env, w) && RoutesUnique(w.s) && !Pending(w) && Victim(w.s, u, victim)
    requires n in w.s.routes && w.s.routes[n].source == u
    ensures victim == Some(n)
  {
    OneRoute(env, w, n, victim.value);
  }

  lemma CloseHostKeeps(env: Env, w: World, u: Uri, victim: Option<string>)
    requires Sensible(env) && RouteInv(env, w) && w.section.Free? && Victim(w.s, u, victim)
    ensures RouteInv(env, DoClosesHost(w, u, victim))
  {
    var w' := DoClosesHost(w, u, victim);
    forall n | n in w'.s.routes ensures RouteOk(env, w', n) {
      assert RouteOk(env, w, n);
      if w.s.routes[n].source == u && u !in w.s.docs && !Pending(w) {
        OneRouteLeft(env, w, n, u, victim);
      }
      RouteCarriesOver(env, w, w', n);
    }
  }

  lemma ReconfigureKeeps(env: Env, w: World)
    requires Sensible(env) && RouteInv(env, w) && w.section.Free?
    ensures RouteInv(env, DoReconfigures(w))
  {
  }

  lemma DisconnectKeeps(env: Env, w: World, key: string, id: nat)
    requires Sensible(env) && RouteInv(env, w) && w.section.Free? && id in w.s.processes
    ensures RouteInv(env, DoDisconnects(w, key, id))
  {
    var w' := DoDisconnects(w, key, id);
    forall n | n in w'.s.routes ensures RouteOk(env, w', n) {
      assert RouteOk(env, w, n);
      RouteCarriesOver(env, w, w', n);
    }
  }

  lemma StartFailureFrame(env: Env, w: World, spawned: Option<nat>)
    requires w.section.Starting?
    ensures var w' := DoFailsToStart(env, w, spawned);
            SameRoutes(w, w') && w'.s.docs == w.s.docs && w'.named == w.named && w'.section.Failing?
  {
  }

  lemma SendFrame(env: Env, w: World, ok: bool)
    requires w.section.Sending? && w.section.id in w.s.processes
    ensures SameRoutes(w, DoSend(env, w, ok)) && DoSend(env, w, ok).s.docs == w.s.docs
  {
  }

  lemma EditorRoutes(env: Env, w: World, step: EditorStep)
    requires Sensible(env) && RouteInv(env, w) && EditorMay(w, step)
    ensures RouteInv(env, DoEditor(env, w, step))
  {
    match step
    case Open(u, text, version) => OpenKeeps(env, w, u, text, version);
    case Change(u, version, changes) => ChangeKeeps(env, w, u, version, changes);
    case Save(u) => SaveShows(env, w, u); QuietKeeps(env, w, DoEditor(env, w, step));
    case Close(u) => CloseKeeps(env, w, u);
    case Configure(_, _) => BumpKeeps(env, w, DoEditor(env, w, step));
    case ChangeFolders(_, _, _) => BumpKeeps(env, w, DoEditor(env, w, step));
  }

  lemma SyncRoutes(env: Env, w: World, step: SyncStep)
    requires Sensible(env) && RouteInv(env, w) && SyncMay(w, step)
    ensures RouteInv(env, DoSync(env, w, step))
  {
    match step
    case ReadDocument(u) => ReadKeeps(env, w, u);
    case ReuseBackend => ReuseKeeps(env, w);
    case StartsBackend(id) => StartKeeps(env, w, id);
    case FailsToStart(spawned) => StartFailureFrame(env, w, spawned); QuietKeeps(env, w, DoSync(env, w, step));
    case Install(prior) => InstallKeeps(env, w, prior);
    case Send(ok) => SendFrame(env, w, ok); QuietKeeps(env, w, DoSync(env, w, step));
    case ReportFailure => FailureShows(env, w); QuietKeeps(env, w, DoSync(env, w, step));
  }

  lemma OtherRoutes(env: Env, w: World, step: OtherStep)
    requires Sensible(env) && RouteInv(env, w) && OtherMay(w, step)
    ensures RouteInv(env, DoOther(env, w, step))
  {
    match step
    case BackendPublishes(kind, name, version, ds) =>
      PublishShows(env, w, kind, name, version, ds);
      QuietKeeps(env, w, DoOther(env, w, step));
    case ClosesHost(u, victim) => CloseHostKeeps(env, w, u, victim);
    case Reconfigures => ReconfigureKeeps(env, w);
    case Disconnects(key, id) => DisconnectKeeps(env, w, key, id);
    case StopsWatching(_, _) => QuietKeeps(env, w, DoOther(env, w, step));
    case ReportsFailure(u, version, message) =>
      ReportShows(env, w, u, version, message);
      QuietKeeps(env, w, DoOther(env, w, step));
    case ClosesBackends => QuietKeeps(env, w, DoOther(env, w, step));
  }
}
