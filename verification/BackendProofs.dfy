/** Every step keeps what is said of backends. */
module BackendProofs {
  import opened Options
  import opened Sessions
  import opened Protocol
  import opened Invariants
  import opened Names

  /** Backends, processes and routes are as before; the settings too, unless a reconfiguration is pending. */
  predicate SameBackends(w: World, w': World) {
    w'.s.backends == w.s.backends && w'.s.processes == w.s.processes && w'.s.routes == w.s.routes &&
    (w'.s.settings == w.s.settings || Pending(w')) && (Pending(w) ==> Pending(w')) &&
    (w.section.Sending? ==> w'.section == w.section) &&
    (forall task | task in w.tasks && task.WatchTask? :: task in w'.tasks)
  }

  lemma SameBackendsKeep(w: World, w': World)
    requires BackendInv(w) && SameBackends(w, w')
    ensures BackendInv(w')
  {
    forall key | key in w'.s.backends ensures BackendOk(w', key) {
      assert BackendOk(w, key);
    }
    forall id | id in w'.s.processes ensures Kept(w', id) {
      assert Kept(w, id);
    }
    forall key, name | OpenIn(w'.s, key, name) ensures OpenOk(w', key, name) {
      assert OpenIn(w.s, key, name);
    }
  }

  lemma StartKeeps(env: Env, w: World, id: nat)
    requires Sensible(env) && SectionOk(env, w) && BackendInv(w)
    requires w.section.Starting? && w.section.job.key !in w.s.backends && id !in w.s.processes
    ensures BackendInv(DoStartsBackend(env, w, id))
  {
    var w' := DoStartsBackend(env, w, id);
    forall key | key in w'.s.backends ensures BackendOk(w', key) {
      assert key != w.section.job.key ==> BackendOk(w, key);
    }
    forall i | i in w'.s.processes ensures Kept(w', i) {
      assert i != id ==> Kept(w, i);
    }
    forall key, name | OpenIn(w'.s, key, name) ensures OpenOk(w', key, name) {
      assert BackendOk(w, key) && OpenIn(w.s, key, name);
    }
  }

  lemma StartFailureKeeps(env: Env, w: World, spawned: Option<nat>)
    requires Sensible(env) && SectionOk(env, w) && BackendInv(w)
    requires w.section.Starting? && (spawned.Some? ==> spawned.value !in w.s.processes)
    ensures BackendInv(DoFailsToStart(env, w, spawned))
  {
    var w' := DoFailsToStart(env, w, spawned);
    forall key | key in w'.s.backends ensures BackendOk(w', key) {
      assert BackendOk(w, key);
    }
    forall i | i in w'.s.processes ensures Kept(w', i) {
      assert i in w.s.processes ==> Kept(w, i);
    }
    forall key, name | OpenIn(w'.s, key, name) ensures OpenOk(w', key, name) {
      assert BackendOk(w, key) && OpenIn(w.s, key, name);
    }
  }

  /** A watcher goes away only with a stopped backend. */
  lemma StopWatchKeeps(w: World, key: string, id: nat)
    requires BackendInv(w) && id in w.s.processes && w.s.processes[id].closed
    ensures BackendInv(Finish(w, WatchTask(key, id)))
  {
    var w' := Finish(w, WatchTask(key, id));
    forall k | k in w'.s.backends ensures BackendOk(w', k) {
      assert BackendOk(w, k);
    }
    forall i | i in w'.s.processes ensures Kept(w', i) {
      assert Kept(w, i);
    }
    forall k, name | OpenIn(w'.s, k, name) ensures OpenOk(w', k, name) {
      assert OpenIn(w.s, k, name);
    }
  }

  lemma ShutdownKeeps(w: World)
    requires BackendInv(w) && w.section.Free?
    ensures BackendInv(w.(s := StopAll(w.s)))
  {
    var w' := w.(s := StopAll(w.s));
    forall k | k in w'.s.backends ensures BackendOk(w', k) {
      assert BackendOk(w, k);
    }
    forall i | i in w'.s.processes ensures Kept(w', i) {
      assert Kept(w, i);
    }
    forall k, name | OpenIn(w'.s, k, name) ensures OpenOk(w', k, name) {
      assert OpenIn(w.s, k, name);
    }
  }

  lemma SentKeeps(env: Env, w: World)
    requires Sensible(env) && SectionOk(env, w) && BackendInv(w) && w.section.Sending? && w.section.id in w.s.processes
    ensures BackendInv(DoSend(env, w, true))
  {
    var w' := DoSend(env, w, true);
    SentOpen(env, w);
    forall k | k in w'.s.backends ensures BackendOk(w', k) {
      assert BackendOk(w, k);
    }
    forall i | i in w'.s.processes ensures Kept(w', i) {
      assert Kept(w, i);
    }
  }

  lemma SentOpen(env: Env, w: World)
    requires Sensible(env) && SectionOk(env, w) && BackendsOk(w) && NoneLeftOpen(w)
    requires w.section.Sending? && w.section.id in w.s.processes
    ensures NoneLeftOpen(DoSend(env, w, true))
  {
    var w' := DoSend(env, w, true);
    assert BackendOk(w, w.section.job.key);
    forall k, name | OpenIn(w'.s, k, name) ensures OpenOk(w', k, name) {
      assert BackendOk(w, k);
      assert OpenIn(w.s, k, name) || (k == w.section.job.key && name == JobName(env, w.section.job));
    }
  }

  /** What is left after a failed send: the backend is stopped and no longer registered. */
  lemma FailedSend(env: Env, w: World)
    requires w.section.Sending? && w.section.id in w.s.processes
    ensures var s, t, id := w.s, DoSend(env, w, false).s, w.section.id;
            t.routes == s.routes && t.settings == s.settings && t.backends == s.backends - {w.section.job.key} &&
            t.processes.Keys == s.processes.Keys && t.processes[id].closed && DoSend(env, w, false).tasks == w.tasks &&
            DoSend(env, w, false).section.Free? &&
            (forall i | i in s.processes && i != id :: t.processes[i] == s.processes[i]) &&
            t.processes[id].key == s.processes[id].key && t.processes[id].kind == s.processes[id].kind &&
            t.processes[id].root == s.processes[id].root && t.processes[id].path == s.processes[id].path &&
            t.processes[id].settings == s.processes[id].settings
  {
  }

  lemma FailedSendKeeps(env: Env, w: World)
    requires Sensible(env) && SectionOk(env, w) && BackendInv(w) && w.section.Sending? && w.section.id in w.s.processes
    ensures BackendInv(DoSend(env, w, false))
  {
    FailedSendKept(env, w);
    FailedSendBackends(env, w);
    FailedSendOpen(env, w);
  }

  lemma FailedSendBackends(env: Env, w: World)
    requires Sensible(env) && SectionOk(env, w) && BackendInv(w) && w.section.Sending? && w.section.id in w.s.processes
    ensures forall k | k in DoSend(env, w, false).s.backends :: BackendOk(DoSend(env, w, false), k)
  {
    var w' := DoSend(env, w, false);
    FailedSend(env, w);
    forall k | k in w'.s.backends ensures BackendOk(w', k) {
      assert BackendOk(w, k);
    }
  }

  lemma FailedSendOpen(env: Env, w: World)
    requires Sensible(env) && SectionOk(env, w) && BackendInv(w) && w.section.Sending? && w.section.id in w.s.processes
    ensures forall k, name | OpenIn(DoSend(env, w, false).s, k, name) :: OpenOk(DoSend(env, w, false), k, name)
  {
    var w' := DoSend(env, w, false);
    FailedSend(env, w);
    forall k, name | OpenIn(w'.s, k, name) ensures OpenOk(w', k, name) {
      assert BackendOk(w, k) && OpenIn(w.s, k, name);
    }
  }

  lemma FailedSendKept(env: Env, w: World)
    requires Sensible(env) && SectionOk(env, w) && Conserved(w) && w.section.Sending? && w.section.id in w.s.processes
    ensures Conserved(DoSend(env, w, false))
  {
    var w' := DoSend(env, w, false);
    FailedSend(env, w);
    forall i | i in w'.s.processes ensures Kept(w', i) {
      assert Kept(w, i);
    }
  }

  /** Installing a route supersedes only the open document that the next step closes. */
  lemma InstallKeeps(env: Env, w: World, prior: Option<string>)
    requires Sensible(env) && RouteInv(env, w) && BackendInv(w) && w.section.Installing?
    requires PriorOf(w.s, w.section.job.uri, w.section.job.key, prior)
    ensures BackendInv(DoInstall(env, w, prior))
  {
    var w' := DoInstall(env, w, prior);
    var job := w.section.job;
    if StillCurrent(w.s, job) {
      forall k | k in w'.s.backends ensures BackendOk(w', k) {
        assert BackendOk(w, k);
      }
      forall i | i in w'.s.processes ensures Kept(w', i) {
        assert Kept(w, i);
      }
      forall k, name | OpenIn(w'.s, k, name) ensures OpenOk(w', k, name) {
        assert OpenIn(w.s, k, name);
        InstalledOpen(env, w, prior, k, name);
      }
    } else {
      SameBackendsKeep(w, w');
    }
  }

  lemma InstalledOpen(env: Env, w: World, prior: Option<string>, key: string, name: string)
    requires Sensible(env) && RouteInv(env, w) && w.section.Installing? && StillCurrent(w.s, w.section.job)
    requires PriorOf(w.s, w.section.job.uri, w.section.job.key, prior)
    requires OpenOk(w, key, name)
    ensures OpenOk(DoInstall(env, w, prior), key, name)
  {
    var job := w.section.job;
    if !Pending(w) {
      if name == JobName(env, job) {
        SameNameSameKey(env, w, name);
      } else if Candidate(w.s, job.uri, job.key, name) {
        OnlyPrior(w.s, job.uri, job.key, prior, name);
      } else {
        StillRouted(env, w, prior, name);
      }
    }
  }

  lemma StillRouted(env: Env, w: World, prior: Option<string>, name: string)
    requires w.section.Installing? && StillCurrent(w.s, w.section.job) && name in w.s.routes
    requires name != JobName(env, w.section.job) && !Candidate(w.s, w.section.job.uri, w.section.job.key, name)
    ensures var t := DoInstall(env, w, prior).s; name in t.routes && t.routes[name] == w.s.routes[name]
  {
  }

  lemma OnlyPrior(s: Session, u: Uri, key: string, prior: Option<string>, name: string)
    requires RoutesUnique(s) && PriorOf(s, u, key, prior) && Candidate(s, u, key, name)
    ensures prior == Some(name)
  {
  }

  /** A document may be open under one name for several URIs of one file; then they share their backend key too. */
  lemma SameNameSameKey(env: Env, w: World, name: string)
    requires Sensible(env) && RoutesOk(env, w) && w.section.Installing? && JobOk(env, w, w.section.job) && !Pending(w)
    requires name in w.s.routes && name == JobName(env, w.section.job)
    ensures w.s.routes[name].key == w.section.job.key
  {
    assert RouteOk(env, w, name);
    var r, job := w.s.routes[name], w.section.job;
    VirtualNameInjective(env.fileOf(r.source), r.version, r.kind, env.fileOf(job.uri), job.doc.version, job.kind);
  }

  lemma ClosedOpen(w: World, u: Uri, victim: Option<string>)
    requires BackendsOk(w) && NoneLeftOpen(w) && w.section.Free? && Victim(w.s, u, victim)
    ensures NoneLeftOpen(DoClosesHost(w, u, victim))
  {
    var w' := DoClosesHost(w, u, victim);
    forall k, name | OpenIn(w'.s, k, name) ensures OpenOk(w', k, name) {
      assert BackendOk(w, k) && OpenIn(w.s, k, name) && OpenOk(w, k, name);
    }
  }

  lemma ClosedKept(w: World, u: Uri, victim: Option<string>)
    requires Conserved(w) && Victim(w.s, u, victim)
    ensures Conserved(DoClosesHost(w, u, victim))
  {
    var w' := DoClosesHost(w, u, victim);
    forall i | i in w'.s.processes ensures Kept(w', i) {
      assert Kept(w, i);
    }
  }

  lemma CloseHostKeeps(w: World, u: Uri, victim: Option<string>)
    requires BackendInv(w) && w.section.Free? && Victim(w.s, u, victim)
    ensures BackendInv(DoClosesHost(w, u, victim))
  {
    var w' := DoClosesHost(w, u, victim);
    ClosedOpen(w, u, victim);
    ClosedKept(w, u, victim);
    forall k | k in w'.s.backends ensures BackendOk(w', k) {
      assert BackendOk(w, k);
    }
  }

  lemma ReconfigureKeeps(w: World)
    requires BackendInv(w) && w.section.Free?
    ensures BackendInv(DoReconfigures(w))
  {
    var w' := DoReconfigures(w);
    forall i | i in w'.s.processes ensures Kept(w', i) {
      assert Kept(w, i);
    }
  }

  lemma DisconnectedOpen(w: World, key: string, id: nat)
    requires BackendsOk(w) && NoneLeftOpen(w) && w.section.Free? && id in w.s.processes
    ensures NoneLeftOpen(DoDisconnects(w, key, id))
  {
    var w' := DoDisconnects(w, key, id);
    forall k, name | OpenIn(w'.s, k, name) ensures OpenOk(w', k, name) {
      assert BackendOk(w, k) && OpenIn(w.s, k, name) && OpenOk(w, k, name);
    }
  }

  lemma DisconnectedKept(w: World, key: string, id: nat)
    requires Conserved(w) && id in w.s.processes
    ensures Conserved(DoDisconnects(w, key, id))
  {
    var w' := DoDisconnects(w, key, id);
    forall i | i in w'.s.processes ensures Kept(w', i) {
      assert Kept(w, i);
    }
  }

  lemma DisconnectedBackends(w: World, key: string, id: nat)
    requires BackendsOk(w) && w.section.Free? && id in w.s.processes
    ensures BackendsOk(DoDisconnects(w, key, id))
  {
    var w' := DoDisconnects(w, key, id);
    forall k | k in w'.s.backends ensures BackendOk(w', k) {
      assert BackendOk(w, k);
    }
  }

  lemma DisconnectKeeps(w: World, key: string, id: nat)
    requires BackendInv(w) && w.section.Free? && id in w.s.processes
    ensures BackendInv(DoDisconnects(w, key, id))
  {
    DisconnectedOpen(w, key, id);
    DisconnectedKept(w, key, id);
    DisconnectedBackends(w, key, id);
  }

  lemma OpenFrame(env: Env, w: World, u: Uri, text: Text, version: int32)
    ensures SameBackends(w, DoOpen(env, w, u, text, version))
  {
  }

  lemma ChangeFrame(env: Env, w: World, u: Uri, version: int32, changes: seq<Text>)
    ensures SameBackends(w, DoChange(env, w, u, version, changes))
  {
  }

  lemma CloseFrame(w: World, u: Uri)
    ensures SameBackends(w, DoClose(w, u))
  {
  }

  lemma ConfigureFrame(env: Env, w: World, settings: Settings, order: seq<Uri>)
    requires Visits(order, w.s.docs.Keys)
    ensures SameBackends(w, DoConfigure(env, w, settings, order))
  {
  }

  lemma FoldersFrame(env: Env, w: World, removed: seq<string>, added: seq<string>, order: seq<Uri>)
    requires Visits(order, w.s.docs.Keys)
    ensures SameBackends(w, DoChangeFolders(env, w, removed, added, order))
  {
  }

  lemma ReadFrame(env: Env, w: World, u: Uri)
    requires Sensible(env) && w.section.Free?
    ensures SameBackends(w, DoReadDocument(env, w, u))
  {
  }

  lemma EditorBackends(env: Env, w: World, step: EditorStep)
    requires BackendInv(w) && EditorMay(w, step)
    ensures BackendInv(DoEditor(env, w, step))
  {
    match step {
      case Open(u, text, version) => OpenFrame(env, w, u, text, version);
      case Change(u, version, changes) => ChangeFrame(env, w, u, version, changes);
      case Save(u) => SaveShows(env, w, u);
      case Close(u) => CloseFrame(w, u);
      case Configure(settings, order) => ConfigureFrame(env, w, settings, order);
      case ChangeFolders(removed, added, order) => FoldersFrame(env, w, removed, added, order);
    }
    SameBackendsKeep(w, DoEditor(env, w, step));
  }

  lemma SyncBackends(env: Env, w: World, step: SyncStep)
    requires Sensible(env) && Inv(env, w) && SyncMay(w, step)
    ensures BackendInv(DoSync(env, w, step))
  {
    match step
    case ReadDocument(u) => ReadFrame(env, w, u); SameBackendsKeep(w, DoReadDocument(env, w, u));
    case ReuseBackend => SameBackendsKeep(w, DoReuseBackend(w));
    case StartsBackend(id) => StartKeeps(env, w, id);
    case FailsToStart(spawned) => StartFailureKeeps(env, w, spawned);
    case Install(prior) => InstallKeeps(env, w, prior);
    case Send(ok) => if ok { SentKeeps(env, w); } else { FailedSendKeeps(env, w); }
    case ReportFailure => FailureShows(env, w); SameBackendsKeep(w, DoReportFailure(env, w));
  }

  lemma OtherBackends(env: Env, w: World, step: OtherStep)
    requires BackendInv(w) && OtherMay(w, step)
    ensures BackendInv(DoOther(env, w, step))
  {
    match step
    case BackendPublishes(kind, name, version, ds) =>
      PublishShows(env, w, kind, name, version, ds);
      SameBackendsKeep(w, DoBackendPublishes(env, w, kind, name, version, ds));
    case ClosesHost(u, victim) => CloseHostKeeps(w, u, victim);
    case Reconfigures => ReconfigureKeeps(w);
    case Disconnects(key, id) => DisconnectKeeps(w, key, id);
    case StopsWatching(key, id) => StopWatchKeeps(w, key, id);
    case ReportsFailure(u, version, message) =>
      ReportShows(env, w, u, version, message);
      SameBackendsKeep(w, DoReportsFailure(env, w, u, version, message));
    case ClosesBackends => ShutdownKeeps(w);
  }
}
