/** Whether an open document is cared for: there is work left for it, or a backend that has it open, or a result; or else a step has
    lost it. */
module Attention {
  import opened Options
  import opened Sessions
  import opened Protocol
  import opened Invariants
  import opened RouteProofs

  /** The running section reads the document's current version. */
  predicate Concerned(w: World, u: Uri)
    requires u in w.s.docs
  {
    match w.section
    case Starting(job) => job.uri == u && StillCurrent(w.s, job)
    case Installing(job, _) => job.uri == u && StillCurrent(w.s, job)
    case Sending(job, _, _) => job.uri == u && StillCurrent(w.s, job)
    case Failing(v, version, _) => v == u && version == w.s.docs[u].version
    case Free => false
  }

  /** A running backend is registered under the route's key and has the route's document open, with the text that the route's
      projection gives. */
  predicate Serving(s: Session, name: string)
    requires name in s.routes
  {
    var key := s.routes[name].key;
    && OpenIn(s, key, name) && !s.processes[s.backends[key]].closed
    && s.processes[s.backends[key]].openDocs[name] == s.routes[name].project.text
  }

  /** A route of the document's current version, made since the last change of settings or folders. */
  predicate HasRoute(s: Session, u: Uri, name: string)
    requires u in s.docs
  {
    && name in s.routes && s.routes[name].source == u && s.routes[name].version == s.docs[u].version
    && s.routes[name].epoch == s.epoch
  }

  predicate IsServedBy(s: Session, u: Uri, name: string)
    requires u in s.docs
  {
    HasRoute(s, u, name) && Serving(s, name)
  }

  /** A backend has the document's current version. */
  ghost predicate Served(s: Session, u: Uri)
    requires u in s.docs
  {
    exists name :: IsServedBy(s, u, name)
  }

  ghost predicate FailureComing(w: World, u: Uri)
    requires u in w.s.docs
  {
    exists message :: FailureTask(u, w.s.docs[u].version, message) in w.tasks
  }

  /** A result is shown for the document's current version: what a backend reported, or a failure. */
  predicate Answered(s: Session, u: Uri)
    requires u in s.docs
  {
    u in s.host && s.host[u].version == s.docs[u].version
  }

  /** The document is not meant for a backend: neither its file name nor its text is of a language that has one, none is set for
      the language, or its own syntax is not in order. */
  predicate Exempt(env: Env, s: Session, u: Uri)
    requires u in s.docs
  {
    var file, text := env.fileOf(u), s.docs[u].text;
    || (env.extensionHost(file).OtherHost? && !env.shellScript(text))
    || (env.extensionHost(file).Yaml? && s.settings.yamlBackend == "")
    || (!env.extensionHost(file).Yaml? && s.settings.bashBackend == "")
    || !env.checked(file, text, s.settings, s.folders)
  }

  lemma SkipsExactly(env: Env, s: Session, u: Uri)
    requires Sensible(env)
    ensures PlanSync(env, s, u).Skip? <==> u !in s.docs || Exempt(env, s, u)
  {
  }

  /** There is something still to be done for the document, or all that can be done has been done. */
  ghost predicate Attended(env: Env, w: World, u: Uri)
    requires Sensible(env) && u in w.s.docs
  {
    || SyncHostTask(u) in w.tasks || Pending(w) || FailureComing(w, u) || Concerned(w, u)
    || Served(w.s, u) || Answered(w.s, u) || Exempt(env, w.s, u)
  }

  // ----- how a document is lost -----

  /** The other documents with a route to the backend that a job was sent to. */
  function Bystanders(s: Session, job: Job): set<Uri> {
    (set n | n in s.routes && s.routes[n].key == job.key :: s.routes[n].source) - {job.uri}
  }

  /** The document of the same file whose route a job takes over. */
  function Displaced(env: Env, s: Session, job: Job): set<Uri> {
    if StillCurrent(s, job) && JobName(env, job) in s.routes then {s.routes[JobName(env, job)].source} - {job.uri} else {}
  }

  function Sources(s: Session): set<Uri> {
    set n | n in s.routes :: s.routes[n].source
  }

  /** A failed send stops a backend that other documents have routes to and tells none of them; a route may be taken over by
      another document of the same file; and at the end all backends are stopped. Whoever is struck is lost until `syncHost` reads
      it again. */
  function LostAfter(env: Env, w: World, step: Step, lost: set<Uri>): set<Uri> {
    match step
    case Sync(ReadDocument(u)) => lost - {u}
    case Sync(Install(_)) => if w.section.Installing? then lost + Displaced(env, w.s, w.section.job) else lost
    case Sync(Send(ok)) => if !ok && w.section.Sending? then lost + Bystanders(w.s, w.section.job) else lost
    case Other(ClosesBackends) => lost + Sources(w.s)
    case _ => lost
  }

  /** The documents that were struck in the course of a run and have not been read since. */
  ghost function Lost(env: Env, w: World, steps: seq<Step>, w': World, lost: set<Uri>): set<Uri>
    requires Sensible(env) && Run(env, w, steps, w')
    decreases |steps|
  {
    if steps == [] then lost else Lost(env, Do(env, w, steps[0]), steps[1..], w', LostAfter(env, w, steps[0], lost))
  }

  ghost predicate Cared(env: Env, w: World, lost: set<Uri>, u: Uri)
    requires Sensible(env) && u in w.s.docs
  {
    u in lost || Attended(env, w, u)
  }

  ghost predicate AllCared(env: Env, w: World, lost: set<Uri>)
    requires Sensible(env)
  {
    forall u | u in w.s.docs :: Cared(env, w, lost, u)
  }

  // ----- what a step leaves of a document -----

  ghost predicate LeavesAlone(w: World, w': World, lost: set<Uri>, u: Uri) {
    && u in w.s.docs && u in w'.s.docs && w'.s.docs[u] == w.s.docs[u]
    && w'.s.settings == w.s.settings && w'.s.folders == w.s.folders && w'.s.epoch == w.s.epoch
    && (SyncHostTask(u) in w.tasks ==> SyncHostTask(u) in w'.tasks)
    && (Pending(w) ==> Pending(w'))
    && (FailureComing(w, u) ==> FailureComing(w', u) || Answered(w'.s, u))
    && (Concerned(w, u) ==> Concerned(w', u) || Served(w'.s, u) || Answered(w'.s, u))
    && (Served(w.s, u) ==> Served(w'.s, u) || FailureComing(w', u) || u in lost)
    && (Answered(w.s, u) ==> Answered(w'.s, u))
  }

  lemma LeftAlone(env: Env, w: World, w': World, lost: set<Uri>, lost': set<Uri>, u: Uri)
    requires Sensible(env) && LeavesAlone(w, w', lost', u) && Cared(env, w, lost, u) && (u in lost ==> u in lost')
    ensures Cared(env, w', lost', u)
  {
  }

  /** Every route that serves the document goes on serving it. */
  ghost predicate StaysServed(s: Session, t: Session, u: Uri)
    requires u in s.docs && u in t.docs
  {
    forall name | IsServedBy(s, u, name) :: IsServedBy(t, u, name)
  }

  /** Nothing changes for the document but that results may be shown for it. */
  lemma SameLeaves(w: World, w': World, lost: set<Uri>, u: Uri)
    requires u in w.s.docs && u in w'.s.docs && w'.s.docs[u] == w.s.docs[u]
    requires w'.s.settings == w.s.settings && w'.s.folders == w.s.folders && w'.s.epoch == w.s.epoch
    requires w'.section == w.section && StaysServed(w.s, w'.s, u)
    requires forall task | task in w.tasks && !task.WatchTask? && !task.CloseHostTask? :: task in w'.tasks
    requires u in w.s.host ==> u in w'.s.host && w'.s.host[u].version == w.s.host[u].version
    ensures LeavesAlone(w, w', lost, u)
  {
  }

  // ----- the editor -----

  lemma EditorCares(env: Env, w: World, step: EditorStep, lost: set<Uri>)
    requires Sensible(env) && AllCared(env, w, lost) && EditorMay(w, step)
    ensures AllCared(env, DoEditor(env, w, step), lost)
  {
    var w' := DoEditor(env, w, step);
    if !Pending(w') {
      forall u | u in w'.s.docs && SyncHostTask(u) !in w'.tasks ensures Cared(env, w', lost, u) {
        EditorLeaves(env, w, step, lost, u);
        LeftAlone(env, w, w', lost, lost, u);
      }
    }
  }

  lemma EditorLeaves(env: Env, w: World, step: EditorStep, lost: set<Uri>, u: Uri)
    requires EditorMay(w, step)
    requires var w' := DoEditor(env, w, step); u in w'.s.docs && SyncHostTask(u) !in w'.tasks && !Pending(w')
    ensures LeavesAlone(w, DoEditor(env, w, step), lost, u)
  {
    match step
    case Open(v, text, version) => OpenLeaves(env, w, v, text, version, lost, u);
    case Change(v, version, changes) => ChangeLeaves(env, w, v, version, changes, lost, u);
    case Save(v) => SaveLeaves(env, w, v, lost, u);
    case Close(v) => CloseLeaves(w, v, lost, u);
    case Configure(_, _) =>
    case ChangeFolders(_, _, _) =>
  }

  lemma OpenLeaves(env: Env, w: World, v: Uri, text: Text, version: int32, lost: set<Uri>, u: Uri)
    requires u in w.s.docs && u != v
    ensures LeavesAlone(w, DoOpen(env, w, v, text, version), lost, u)
  {
    SameLeaves(w, DoOpen(env, w, v, text, version), lost, u);
  }

  lemma ChangeLeaves(env: Env, w: World, v: Uri, version: int32, changes: seq<Text>, lost: set<Uri>, u: Uri)
    requires u in w.s.docs && (u != v || !Newer(w.s, v, version))
    ensures LeavesAlone(w, DoChange(env, w, v, version, changes), lost, u)
  {
    SameLeaves(w, DoChange(env, w, v, version, changes), lost, u);
  }

  lemma SaveLeaves(env: Env, w: World, v: Uri, lost: set<Uri>, u: Uri)
    requires u in w.s.docs
    ensures LeavesAlone(w, w.(s := DidSave(env, w.s, v)), lost, u)
  {
    SameLeaves(w, w.(s := DidSave(env, w.s, v)), lost, u);
  }

  lemma CloseLeaves(w: World, v: Uri, lost: set<Uri>, u: Uri)
    requires u in w.s.docs && u != v
    ensures LeavesAlone(w, DoClose(w, v), lost, u)
  {
    SameLeaves(w, DoClose(w, v), lost, u);
  }

  // ----- syncHost -----

  lemma ReadCares(env: Env, w: World, u: Uri, lost: set<Uri>)
    requires Sensible(env) && AllCared(env, w, lost) && SyncMay(w, ReadDocument(u))
    ensures AllCared(env, DoReadDocument(env, w, u), lost - {u})
  {
    var w' := DoReadDocument(env, w, u);
    SkipsExactly(env, w.s, u);
    forall v | v in w'.s.docs ensures Cared(env, w', lost - {u}, v) {
      if v != u {
        assert forall task | task in w.tasks && task != SyncHostTask(u) :: task in w'.tasks;
        assert StaysServed(w.s, w'.s, v);
        LeftAlone(env, w, w', lost, lost - {u}, v);
      }
    }
  }

  /** Starting a backend, or failing to, keeps the section on its document and the other backends as they are. */
  lemma StartCares(env: Env, w: World, w': World, lost: set<Uri>)
    requires Sensible(env) && AllCared(env, w, lost) && w.section.Starting?
    requires w'.s == w.s.(processes := w'.s.processes, backends := w'.s.backends)
    requires forall key | key in w.s.backends :: key in w'.s.backends && w'.s.backends[key] == w.s.backends[key]
    requires forall id | id in w.s.processes :: id in w'.s.processes && w'.s.processes[id] == w.s.processes[id]
    requires forall task | task in w.tasks :: task in w'.tasks
    requires (w'.section.Installing? && w'.section.job == w.section.job) ||
             (w'.section.Failing? && w'.section.uri == w.section.job.uri && w'.section.version == w.section.job.doc.version)
    ensures AllCared(env, w', lost)
  {
    forall u | u in w'.s.docs ensures Cared(env, w', lost, u) {
      assert StaysServed(w.s, w'.s, u);
      LeftAlone(env, w, w', lost, lost, u);
    }
  }

  lemma InstallCares(env: Env, w: World, prior: Option<string>, lost: set<Uri>)
    requires Sensible(env) && AllCared(env, w, lost) && w.section.Installing?
    ensures AllCared(env, DoInstall(env, w, prior), lost + Displaced(env, w.s, w.section.job))
  {
    var w', job := DoInstall(env, w, prior), w.section.job;
    var lost' := lost + Displaced(env, w.s, job);
    forall u | u in w'.s.docs ensures Cared(env, w', lost', u) {
      if StillCurrent(w.s, job) && u == job.uri {
        assert Concerned(w', u);
      } else {
        InstallLeaves(env, w, prior, lost', u);
        LeftAlone(env, w, w', lost, lost', u);
      }
    }
  }

  /** Installing a route takes one from another document only if that is of the same file. */
  lemma InstallLeaves(env: Env, w: World, prior: Option<string>, lost: set<Uri>, u: Uri)
    requires w.section.Installing? && u in w.s.docs && Displaced(env, w.s, w.section.job) <= lost
    requires !StillCurrent(w.s, w.section.job) || u != w.section.job.uri
    ensures LeavesAlone(w, DoInstall(env, w, prior), lost, u)
  {
    var w', job := DoInstall(env, w, prior), w.section.job;
    if Served(w.s, u) && u !in lost {
      var name :| IsServedBy(w.s, u, name);
      assert IsServedBy(w'.s, u, name);
    }
  }

  /** The route that a job supersedes is gone before its document is closed in the backend. */
  predicate PriorGone(env: Env, w: World) {
    w.section.Sending? && w.section.prior.Some? && w.section.prior.value != JobName(env, w.section.job) ==>
      w.section.prior.value !in w.s.routes
  }

  lemma SentServes(env: Env, w: World, u: Uri)
    requires Sensible(env) && SectionOk(env, w) && PriorGone(env, w)
    requires w.section.Sending? && w.section.id in w.s.processes && u in w.s.docs
    ensures StaysServed(w.s, DoSend(env, w, true).s, u)
  {
  }

  lemma SentCares(env: Env, w: World, lost: set<Uri>)
    requires Sensible(env) && SectionOk(env, w) && PriorGone(env, w) && AllCared(env, w, lost) && SyncMay(w, Send(true))
    ensures AllCared(env, DoSend(env, w, true), lost)
  {
    var w', job := DoSend(env, w, true), w.section.job;
    forall u | u in w'.s.docs ensures Cared(env, w', lost, u) {
      SentServes(env, w, u);
      if StillCurrent(w.s, job) && u == job.uri {
        assert IsServedBy(w'.s, u, JobName(env, job));
      } else {
        LeftAlone(env, w, w', lost, lost, u);
      }
    }
  }

  /** Reporting a failure answers the document if it still has that version, and touches no other. */
  lemma FailureAnswers(env: Env, s: Session, u: Uri, version: int32, message: string)
    ensures var t := HostFailure(env, s, u, version, message);
            && t == s.(host := t.host, log := t.log)
            && (u in s.docs && s.docs[u].version == version ==> Answered(t, u))
            && (forall v | v in s.docs && Answered(s, v) :: Answered(t, v))
  {
  }

  lemma UnsentServes(env: Env, w: World, u: Uri)
    requires Sensible(env) && SectionOk(env, w) && BackendsOk(w) && w.section.Sending? && w.section.id in w.s.processes
    requires u in w.s.docs && u !in Bystanders(w.s, w.section.job) && u != w.section.job.uri
    ensures StaysServed(w.s, DoSend(env, w, false).s, u)
  {
    var t, job := DoSend(env, w, false).s, w.section.job;
    forall name | IsServedBy(w.s, u, name) ensures IsServedBy(t, u, name) {
      var key := w.s.routes[name].key;
      assert BackendOk(w, key) && BackendOk(w, job.key);
    }
  }

  /** Of a document that has moved on since it was read, no route is current. */
  lemma MovedOn(env: Env, w: World, u: Uri)
    requires Sensible(env) && RouteInv(env, w) && !Pending(w) && w.section.Sending? && u == w.section.job.uri && u in w.s.docs
    requires !StillCurrent(w.s, w.section.job)
    ensures !Served(w.s, u)
  {
    forall name | IsServedBy(w.s, u, name) ensures false {
      OneRoute(env, w, name, JobName(env, w.section.job));
    }
  }

  lemma UnsentLeaves(env: Env, w: World, lost: set<Uri>, u: Uri)
    requires Sensible(env) && SectionOk(env, w) && BackendsOk(w) && w.section.Sending? && w.section.id in w.s.processes
    requires u in w.s.docs && Bystanders(w.s, w.section.job) <= lost
    requires u == w.section.job.uri ==> !StillCurrent(w.s, w.section.job) && !Served(w.s, u)
    ensures LeavesAlone(w, DoSend(env, w, false), lost, u)
  {
    var job := w.section.job;
    if u != job.uri && u !in Bystanders(w.s, job) {
      UnsentServes(env, w, u);
    }
  }

  lemma UnsentCares(env: Env, w: World, lost: set<Uri>)
    requires Sensible(env) && RouteInv(env, w) && BackendsOk(w) && AllCared(env, w, lost)
    requires w.section.Sending? && w.section.id in w.s.processes
    ensures AllCared(env, DoSend(env, w, false), lost + Bystanders(w.s, w.section.job))
  {
    var w', job := DoSend(env, w, false), w.section.job;
    var lost' := lost + Bystanders(w.s, job);
    forall u | u in w'.s.docs && !Pending(w') ensures Cared(env, w', lost', u) {
      if StillCurrent(w.s, job) && u == job.uri {
        assert Answered(w'.s, u);
      } else {
        if u == job.uri {
          MovedOn(env, w, u);
        }
        UnsentLeaves(env, w, lost', u);
        LeftAlone(env, w, w', lost, lost', u);
      }
    }
  }

  /** Any step in which a failure is reported for `u`, and nothing else that matters changes. */
  lemma FailureCares(env: Env, w: World, w': World, u: Uri, version: int32, message: string, lost: set<Uri>)
    requires Sensible(env) && AllCared(env, w, lost)
    requires w'.s == HostFailure(env, w.s, u, version, message)
    requires forall task | task in w.tasks && (!task.FailureTask? || task.uri != u || task.version != version) :: task in w'.tasks
    requires w'.section == w.section || (w.section.Failing? && w.section.uri == u && w.section.version == version)
    ensures AllCared(env, w', lost)
  {
    FailureAnswers(env, w.s, u, version, message);
    forall v | v in w'.s.docs ensures Cared(env, w', lost, v) {
      assert StaysServed(w.s, w'.s, v);
      if !(v == u && w.s.docs[v].version == version) {
        LeftAlone(env, w, w', lost, lost, v);
      }
    }
  }

  lemma SyncCares(env: Env, w: World, step: SyncStep, lost: set<Uri>)
    requires Sensible(env) && Inv(env, w) && PriorGone(env, w) && AllCared(env, w, lost) && SyncMay(w, step)
    ensures AllCared(env, DoSync(env, w, step), LostAfter(env, w, Sync(step), lost))
  {
    match step
    case ReadDocument(u) => ReadCares(env, w, u, lost);
    case ReuseBackend => StartCares(env, w, DoSync(env, w, step), lost);
    case StartsBackend(id) => StartCares(env, w, DoSync(env, w, step), lost);
    case FailsToStart(spawned) => StartCares(env, w, DoSync(env, w, step), lost);
    case Install(prior) => InstallCares(env, w, prior, lost);
    case Send(ok) => if ok { SentCares(env, w, lost); } else { UnsentCares(env, w, lost); }
    case ReportFailure =>
      FailureCares(env, w, DoReportFailure(env, w), w.section.uri, w.section.version, w.section.message, lost);
  }

  // ----- everything else -----

  lemma PublishCares(env: Env, w: World, step: OtherStep, lost: set<Uri>)
    requires Sensible(env) && AllCared(env, w, lost) && step.BackendPublishes?
    ensures AllCared(env, DoOther(env, w, step), LostAfter(env, w, Other(step), lost))
  {
    var w' := DoOther(env, w, step);
    forall u | u in w'.s.docs ensures Cared(env, w', lost, u) {
      if RouteCurrent(w.s, step.kind, step.name, step.wire) && u == w.s.routes[step.name].source {
        assert Answered(w'.s, u);
      } else {
        SameLeaves(w, w', lost, u);
        LeftAlone(env, w, w', lost, lost, u);
      }
    }
  }

  lemma CloseHostCares(env: Env, w: World, step: OtherStep, lost: set<Uri>)
    requires Sensible(env) && AllCared(env, w, lost) && OtherMay(w, step) && step.ClosesHost?
    ensures AllCared(env, DoOther(env, w, step), LostAfter(env, w, Other(step), lost))
  {
    var w' := DoClosesHost(w, step.uri, step.victim);
    forall v | v in w'.s.docs ensures Cared(env, w', lost, v) {
      CloseHostServes(w.s, step.uri, step.victim, v);
      SameLeaves(w, w', lost, v);
      LeftAlone(env, w, w', lost, lost, v);
    }
  }

  lemma CloseHostServes(s: Session, u: Uri, victim: Option<string>, v: Uri)
    requires Victim(s, u, victim) && v in s.docs
    ensures StaysServed(s, CloseHost(s, u, victim), v)
  {
  }

  lemma ReconfigureCares(env: Env, w: World, step: OtherStep, lost: set<Uri>)
    requires Sensible(env) && OtherMay(w, step) && step.Reconfigures?
    ensures AllCared(env, DoOther(env, w, step), LostAfter(env, w, Other(step), lost))
  {
    var w' := DoReconfigures(w);
    forall u | u in w'.s.docs ensures Cared(env, w', lost, u) {
      assert SyncHostTask(u) in SyncAll(w.s.docs);
    }
  }

  lemma DisconnectCares(env: Env, w: World, step: OtherStep, lost: set<Uri>)
    requires Sensible(env) && BackendsOk(w) && AllCared(env, w, lost) && OtherMay(w, step) && step.Disconnects?
    ensures AllCared(env, DoOther(env, w, step), LostAfter(env, w, Other(step), lost))
  {
    var w' := DoDisconnects(w, step.key, step.id);
    forall u | u in w'.s.docs ensures Cared(env, w', lost, u) {
      DisconnectLeaves(w, step.key, step.id, lost, u);
      LeftAlone(env, w, w', lost, lost, u);
    }
  }

  /** A document that a lost backend served is told so, and any other goes on being served. */
  lemma DisconnectServes(w: World, key: string, id: nat, u: Uri)
    requires BackendsOk(w) && id in w.s.processes && u in w.s.docs && Served(w.s, u)
    ensures Served(DoDisconnects(w, key, id).s, u) || FailureComing(DoDisconnects(w, key, id), u)
  {
    var n :| IsServedBy(w.s, u, n);
    var r := w.s.routes[n];
    assert BackendOk(w, r.key);
    if Running(w, key, id) && r.key == key {
      assert FailureTask(r.source, r.version, Message(r.kind, Disconnected)) in Affected(w.s.routes, key);
    } else {
      assert IsServedBy(DoDisconnects(w, key, id).s, u, n);
    }
  }

  lemma DisconnectLeaves(w: World, key: string, id: nat, lost: set<Uri>, u: Uri)
    requires BackendsOk(w) && w.section.Free? && id in w.s.processes && u in w.s.docs
    ensures LeavesAlone(w, DoDisconnects(w, key, id), lost, u)
  {
    assert forall task | task in w.tasks && !task.WatchTask? :: task in DoDisconnects(w, key, id).tasks;
    if Served(w.s, u) {
      DisconnectServes(w, key, id, u);
    }
  }

  lemma StopWatchCares(env: Env, w: World, step: OtherStep, lost: set<Uri>)
    requires Sensible(env) && AllCared(env, w, lost) && OtherMay(w, step) && step.StopsWatching?
    ensures AllCared(env, DoOther(env, w, step), LostAfter(env, w, Other(step), lost))
  {
    var w' := Finish(w, WatchTask(step.key, step.id));
    forall u | u in w'.s.docs ensures Cared(env, w', lost, u) {
      SameLeaves(w, w', lost, u);
      LeftAlone(env, w, w', lost, lost, u);
    }
  }

  lemma ShutdownCares(env: Env, w: World, step: OtherStep, lost: set<Uri>)
    requires Sensible(env) && AllCared(env, w, lost) && OtherMay(w, step) && step.ClosesBackends?
    ensures AllCared(env, DoOther(env, w, step), LostAfter(env, w, Other(step), lost))
  {
    var w' := w.(s := StopAll(w.s));
    forall u | u in w'.s.docs ensures Cared(env, w', lost + Sources(w.s), u) {
      if Served(w.s, u) {
        var n :| IsServedBy(w.s, u, n);
        assert w.s.routes[n].source in Sources(w.s);
      }
      LeftAlone(env, w, w', lost, lost + Sources(w.s), u);
    }
  }

  lemma OtherCares(env: Env, w: World, step: OtherStep, lost: set<Uri>)
    requires Sensible(env) && BackendsOk(w) && AllCared(env, w, lost) && OtherMay(w, step)
    ensures AllCared(env, DoOther(env, w, step), LostAfter(env, w, Other(step), lost))
  {
    match step
    case BackendPublishes(_, _, _, _) => PublishCares(env, w, step, lost);
    case ClosesHost(_, _) => CloseHostCares(env, w, step, lost);
    case Reconfigures => ReconfigureCares(env, w, step, lost);
    case Disconnects(_, _) => DisconnectCares(env, w, step, lost);
    case StopsWatching(_, _) => StopWatchCares(env, w, step, lost);
    case ReportsFailure(u, version, message) => FailureCares(env, w, DoOther(env, w, step), u, version, message, lost);
    case ClosesBackends => ShutdownCares(env, w, step, lost);
  }
}
