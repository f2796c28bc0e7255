/** What the editor shows for a document, over every run. */
module Display {
  import opened Options
  import opened Projections
  import opened Mapping
  import opened Sessions
  import opened Protocol
  import opened Publication
  import opened Invariants
  import opened Freshness
  import opened Safety
  import opened Attention

  function LastEvent(log: seq<Event>, u: Uri): Option<Event> {
    if log == [] then None
    else if log[|log|-1].uri == u then Some(log[|log|-1])
    else LastEvent(log[..|log|-1], u)
  }

  /** What is cached for a document from backends: their diagnostics, or a failure. */
  function Cached(s: Session, u: Uri): seq<Diagnostic> {
    if u in s.host then s.host[u].diagnostics else []
  }

  /** The last the editor was sent: the syntax diagnostics of the current text under the current settings and folders, and
      behind them what is cached. */
  predicate UpToDate(env: Env, s: Session, u: Uri)
    requires u in s.docs
  {
    LastEvent(s.log, u) ==
      Some(Published(u, s.docs[u].version,
                     env.syntax(env.fileOf(u), s.docs[u].text, s.settings, s.folders) + Cached(s, u)))
  }

  predicate NothingShown(s: Session, u: Uri) {
    LastEvent(s.log, u) == None || LastEvent(s.log, u) == Some(Cleared(u))
  }

  ghost predicate Displayed(env: Env, s: Session) {
    forall u :: if u in s.docs then UpToDate(env, s, u) else NothingShown(s, u)
  }

  /** Nothing that is shown changes. */
  lemma SameDisplay(env: Env, s: Session, t: Session)
    requires Displayed(env, s) && t.docs == s.docs && t.host == s.host && t.settings == s.settings && t.folders == s.folders
    requires t.log == s.log
    ensures Displayed(env, t)
  {
    forall u ensures if u in t.docs then UpToDate(env, t, u) else NothingShown(t, u) {
      assert if u in s.docs then UpToDate(env, s, u) else NothingShown(s, u);
    }
  }

  /** Publishing a document brings it up to date and leaves the others as they are. */
  lemma PublishShows(env: Env, s: Session, u: Uri, v: Uri)
    requires u in s.docs && CacheCurrent(s)
    ensures var t := Publish(env, s, u);
            && LastEvent(t.log, v) == (if v == u then LastEvent(t.log, u) else LastEvent(s.log, v))
            && UpToDate(env, t, u)
            && (v != u && v in s.docs ==> (UpToDate(env, t, v) <==> UpToDate(env, s, v)))
            && (v != u ==> (NothingShown(t, v) <==> NothingShown(s, v)))
  {
    var t := Publish(env, s, u);
    assert t.log[..|t.log|-1] == s.log;
  }

  /** What is shown of a document depends on that document alone. */
  lemma OthersUnmoved(env: Env, s: Session, t: Session, u: Uri, v: Uri)
    requires v != u && (v in t.docs <==> v in s.docs) && (v in t.docs ==> t.docs[v] == s.docs[v])
    requires (v in t.host <==> v in s.host) && (v in t.host ==> t.host[v] == s.host[v])
    requires t.settings == s.settings && t.folders == s.folders && (t.log == s.log || t.log == s.log + [Opened(u)])
    ensures v in s.docs ==> (UpToDate(env, t, v) <==> UpToDate(env, s, v))
    ensures NothingShown(t, v) <==> NothingShown(s, v)
  {
    assert t.log != s.log ==> t.log[..|t.log|-1] == s.log && t.log[|t.log|-1] == Opened(u);
  }

  /** A change to one document, followed by its publication. */
  lemma ChangedAndPublished(env: Env, s: Session, t: Session, u: Uri)
    requires Displayed(env, s) && CacheCurrent(t) && u in t.docs
    requires t.settings == s.settings && t.folders == s.folders
    requires forall v | v != u :: (v in t.docs <==> v in s.docs) && (v in t.docs ==> t.docs[v] == s.docs[v])
    requires forall v | v != u :: (v in t.host <==> v in s.host) && (v in t.host ==> t.host[v] == s.host[v])
    requires t.log == s.log || t.log == s.log + [Opened(u)]
    ensures Displayed(env, Publish(env, t, u))
  {
    forall v ensures var r := Publish(env, t, u); if v in r.docs then UpToDate(env, r, v) else NothingShown(r, v) {
      PublishShows(env, t, u, v);
      if v != u {
        assert if v in s.docs then UpToDate(env, s, v) else NothingShown(s, v);
        OthersUnmoved(env, s, t, u, v);
      }
    }
  }

  /** Publishing every document brings all up to date, whatever was shown before. */
  lemma {:induction false} RepublishShows(env: Env, s: Session, order: seq<Uri>, v: Uri)
    requires (forall i | 0 <= i < |order| :: order[i] in s.docs) && CacheCurrent(s)
    ensures var t := Republish(env, s, order);
            && (v in s.docs && (v in order || UpToDate(env, s, v)) ==> UpToDate(env, t, v))
            && (v !in s.docs ==> (NothingShown(t, v) <==> NothingShown(s, v)))
    decreases |order|
  {
    if order != [] {
      var next := Publish(env, s, order[0]);
      PublishShows(env, s, order[0], v);
      RepublishShows(env, next, order[1..], v);
    }
  }

  lemma AllRepublished(env: Env, s: Session, t: Session, order: seq<Uri>)
    requires Displayed(env, s) && t.docs == s.docs && t.log == s.log && t.host == map[] && Visits(order, t.docs.Keys)
    ensures Displayed(env, Republish(env, t, order))
  {
    forall v ensures var r := Republish(env, t, order); if v in r.docs then UpToDate(env, r, v) else NothingShown(r, v) {
      assert v !in s.docs ==> NothingShown(s, v);
      RepublishShows(env, t, order, v);
    }
  }

  lemma ClosedDisplay(env: Env, s: Session, u: Uri)
    requires Displayed(env, s)
    ensures Displayed(env, DidClose(s, u))
  {
    var t := DidClose(s, u);
    assert t.log[..|t.log|-1] == s.log;
    forall v ensures if v in t.docs then UpToDate(env, t, v) else NothingShown(t, v) {
      assert if v in s.docs then UpToDate(env, s, v) else NothingShown(s, v);
    }
  }

  lemma OpenDisplay(env: Env, s: Session, u: Uri, text: Text, version: int32)
    requires Displayed(env, s) && CacheCurrent(s)
    ensures Displayed(env, DidOpen(env, s, u, text, version))
  {
    ChangedAndPublished(env, s, s.(docs := s.docs[u := Document(text, version)], host := s.host - {u}, log := s.log + [Opened(u)]), u);
  }

  lemma ChangeDisplay(env: Env, s: Session, u: Uri, version: int32, changes: seq<Text>)
    requires Displayed(env, s) && CacheCurrent(s)
    ensures Displayed(env, DidChange(env, s, u, version, changes))
  {
    if Newer(s, u, version) {
      var doc := Document(LastText(s.docs[u].text, changes), version);
      ChangedAndPublished(env, s, s.(docs := s.docs[u := doc], host := s.host - {u}), u);
    }
  }

  lemma FailureDisplay(env: Env, s: Session, u: Uri, version: int32, message: string)
    requires Displayed(env, s) && CacheCurrent(s)
    ensures Displayed(env, HostFailure(env, s, u, version, message))
  {
    if u in s.docs && s.docs[u].version == version {
      ChangedAndPublished(env, s, s.(host := s.host[u := HostResult(version, [FailureDiagnostic(message)])]), u);
    }
  }

  lemma BackendDisplay(env: Env, s: Session, kind: Host, name: string, version: nat, ds: seq<Diagnostic>)
    requires Displayed(env, s) && CacheCurrent(s)
    ensures Displayed(env, BackendPublish(env, s, kind, name, version, ds))
  {
    if RouteCurrent(s, kind, name, version) {
      var r := s.routes[name];
      ChangedAndPublished(env, s, s.(host := s.host[r.source := HostResult(r.version, MapAll(r.project, kind, ds))]), r.source);
    }
  }

  lemma EditorDisplay(env: Env, w: World, step: EditorStep)
    requires EditorMay(w, step) && Displayed(env, w.s) && CacheCurrent(w.s)
    ensures Displayed(env, DoEditor(env, w, step).s)
  {
    match step
    case Open(u, text, version) => OpenDisplay(env, w.s, u, text, version);
    case Change(u, version, changes) => ChangeDisplay(env, w.s, u, version, changes);
    case Save(u) => if u in w.s.docs { ChangedAndPublished(env, w.s, w.s, u); }
    case Close(u) => ClosedDisplay(env, w.s, u);
    case Configure(settings, order) =>
      AllRepublished(env, w.s, w.s.(settings := settings, epoch := w.s.epoch + 1, host := map[]), order);
    case ChangeFolders(removed, added, order) =>
      AllRepublished(env, w.s, w.s.(folders := RemoveAll(w.s.folders, removed) + added, epoch := w.s.epoch + 1, host := map[]), order);
  }

  /** A failed send shows what a failure shows, and a successful one nothing. */
  lemma SendShows(env: Env, s: Session, job: Job, id: nat, prior: Option<string>, ok: bool)
    requires id in s.processes
    ensures var t := SendProjection(env, s, job, id, prior, ok);
            var f := if ok then s else HostFailure(env, s, job.uri, job.doc.version, Message(job.kind, SendFailed));
            t.docs == f.docs && t.host == f.host && t.settings == f.settings && t.folders == f.folders && t.log == f.log
  {
  }

  lemma SendDisplay(env: Env, w: World, ok: bool)
    requires w.section.Sending? && w.section.id in w.s.processes && Displayed(env, w.s) && CacheCurrent(w.s)
    ensures Displayed(env, DoSend(env, w, ok).s)
  {
    var job := w.section.job;
    SendShows(env, w.s, job, w.section.id, w.section.prior, ok);
    FailureDisplay(env, w.s, job.uri, job.doc.version, Message(job.kind, SendFailed));
    SameDisplay(env, if ok then w.s else HostFailure(env, w.s, job.uri, job.doc.version, Message(job.kind, SendFailed)),
                DoSend(env, w, ok).s);
  }

  lemma SyncDisplay(env: Env, w: World, step: SyncStep)
    requires Sensible(env) && SyncMay(w, step) && Displayed(env, w.s) && CacheCurrent(w.s)
    ensures Displayed(env, DoSync(env, w, step).s)
  {
    match step
    case Send(ok) => SendDisplay(env, w, ok);
    case ReportFailure => FailureDisplay(env, w.s, w.section.uri, w.section.version, w.section.message);
    case _ => SameDisplay(env, w.s, DoSync(env, w, step).s);
  }

  lemma OtherDisplay(env: Env, w: World, step: OtherStep)
    requires OtherMay(w, step) && Displayed(env, w.s) && CacheCurrent(w.s)
    ensures Displayed(env, DoOther(env, w, step).s)
  {
    match step
    case BackendPublishes(kind, name, version, ds) => BackendDisplay(env, w.s, kind, name, version, ds);
    case ReportsFailure(u, version, message) => FailureDisplay(env, w.s, u, version, message);
    case _ => SameDisplay(env, w.s, DoOther(env, w, step).s);
  }

  lemma {:induction false} DisplayedRun(env: Env, w: World, steps: seq<Step>, w': World)
    requires Sensible(env) && Good(env, w) && Displayed(env, w.s) && Run(env, w, steps, w')
    ensures Displayed(env, w'.s)
    decreases |steps|
  {
    if steps != [] {
      GoodStep(env, w, steps[0]);
      match steps[0] {
        case Editor(e) => EditorDisplay(env, w, e);
        case Sync(y) => SyncDisplay(env, w, y);
        case Other(o) => OtherDisplay(env, w, o);
      }
      DisplayedRun(env, Do(env, w, steps[0]), steps[1..], w');
    }
  }

  lemma ReachableDisplayed(env: Env, w: World)
    requires Sensible(env) && Reachable(env, w)
    ensures Displayed(env, w.s)
  {
    var w0, steps :| Initial(w0) && Run(env, w0, steps, w);
    DisplayedRun(env, w0, steps, w);
  }

  /** In every reachable state the editor shows of each open document the syntax diagnostics of its current text, under the
      current settings and folders, followed by whatever is cached for it; nothing is shown of any other document; and if no
      version was reused, each diagnostic behind the first ones is a notice of failure, or one that a backend published about
      this version, carried back soundly to the text the document has now. */
  lemma EditorShowsCurrent(env: Env, w: World, u: Uri)
    requires Sensible(env) && Reachable(env, w)
    ensures u !in w.s.docs ==> NothingShown(w.s, u)
    ensures u in w.s.docs ==>
              exists shown ::
                && LastEvent(w.s.log, u) == Some(Published(u, w.s.docs[u].version, shown))
                && shown == env.syntax(env.fileOf(u), w.s.docs[u].text, w.s.settings, w.s.folders) +
                            (if u in w.s.host then w.s.host[u].diagnostics else [])
                && (Functional(w.named) ==> forall d | d in Cached(w.s, u) :: NoticeOrSound(env, w, u, d))
  {
    ReachableDisplayed(env, w);
    if u in w.s.docs {
      assert UpToDate(env, w.s, u);
      if Functional(w.named) {
        forall d | d in Cached(w.s, u) ensures NoticeOrSound(env, w, u, d) {
          ShownTextIsCurrent(env, w, u, d);
        }
      }
    } else {
      assert NothingShown(w.s, u);
    }
  }

  ghost predicate NoticeOrSound(env: Env, w: World, u: Uri, d: Diagnostic)
    requires Sensible(env) && u in w.s.docs
  {
    || (exists message :: d == FailureDiagnostic(message))
    || var p := Project(env, w.s.docs[u].text, FixedKind(env, env.fileOf(u)), w.s.settings);
       p.Some? && p.value.source == w.s.docs[u].text && ShownFrom(env, w, u, p.value, d)
  }

  /** What a backend reports through a current route, of this version or of none named, reaches the editor whole: behind the syntax
      diagnostics stand, in order, all those that can be placed. */
  lemma ReportReachesEditor(env: Env, w: World, u: Uri, name: string, wire: nat, ds: seq<Diagnostic>) returns (kept: seq<nat>)
    requires Sensible(env) && Reachable(env, w) && u in w.s.docs && HasRoute(w.s, u, name)
    requires wire == 0 || wire == Wire(w.s.docs[u].version)
    ensures var r := w.s.routes[name];
            var t := DoOther(env, w, BackendPublishes(r.kind, name, wire, ds)).s;
            && u in t.docs && UpToDate(env, t, u) && KeptInOrder(r.project, r.kind, ds, kept, Cached(t, u))
            && (Functional(w.named) ==> Project(env, t.docs[u].text, r.kind, t.settings) == Some(r.project))
  {
    var r := w.s.routes[name];
    ReachableGood(env, w);
    ReachableDisplayed(env, w);
    BackendDisplay(env, w.s, r.kind, name, wire, ds);
    kept := MapAllExactly(r.project, r.kind, ds);
    if Functional(w.named) {
      CurrentRouteIsFresh(env, w, name);
    }
  }

  /** Saving an open document publishes it once more, and saving any other publishes nothing. */
  lemma SavePublishes(env: Env, w: World, u: Uri)
    requires Sensible(env) && Reachable(env, w)
    ensures var t := DoEditor(env, w, Save(u)).s;
            if u in w.s.docs then |t.log| == |w.s.log| + 1 && t.log[..|w.s.log|] == w.s.log && UpToDate(env, t, u)
            else t.log == w.s.log
  {
    ReachableGood(env, w);
    ReachableDisplayed(env, w);
    EditorDisplay(env, w, Save(u));
  }
}
