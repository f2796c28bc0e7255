/** Cached host results are computed from the text they are shown for. */
module Freshness {
  import opened Options
  import opened Projections
  import opened Mapping
  import opened Sessions
  import opened Protocol
  import opened Invariants

  /** No version of a document ever named two texts. */
  ghost predicate Functional(named: set<Named>) {
    forall a, b | a in named && b in named && a.uri == b.uri && a.version == b.version :: a.text == b.text
  }

  ghost predicate IsFailure(ds: seq<Diagnostic>) {
    exists message :: ds == [FailureDiagnostic(message)]
  }

  /** A backend published `reported` about this version of the document, and this is what comes of mapping it through the
      projection of the document's own text under the current settings. */
  ghost predicate IsMapped(env: Env, s: Session, heard: set<Heard>, u: Uri, ds: seq<Diagnostic>)
    requires Sensible(env) && u in s.docs
  {
    var kind := FixedKind(env, env.fileOf(u));
    var p := Project(env, s.docs[u].text, kind, s.settings);
    p.Some? && p.value.safe && exists reported :: Reported(env, s, heard, u, reported) && ds == MapAll(p.value, kind, reported)
  }

  ghost predicate Reported(env: Env, s: Session, heard: set<Heard>, u: Uri, reported: seq<Diagnostic>)
    requires u in s.docs
  {
    var kind := FixedKind(env, env.fileOf(u));
    Heard(kind, VirtualName(env.fileOf(u), s.docs[u].version, kind), reported) in heard
  }

  ghost predicate Fresh(env: Env, s: Session, heard: set<Heard>)
    requires Sensible(env)
  {
    forall u | u in s.host :: u in s.docs && FreshAt(env, s, heard, u)
  }

  ghost predicate FreshAt(env: Env, s: Session, heard: set<Heard>, u: Uri)
    requires Sensible(env) && u in s.host && u in s.docs
  {
    IsFailure(s.host[u].diagnostics) || IsMapped(env, s, heard, u, s.host[u].diagnostics)
  }

  ghost predicate FreshInv(env: Env, w: World)
    requires Sensible(env)
  {
    Functional(w.named) ==> Fresh(env, w.s, w.heard)
  }

  /** Host results that survive a step stay fresh if their documents and the settings do not change. */
  lemma StaysFresh(env: Env, s: Session, t: Session, heard: set<Heard>)
    requires Sensible(env) && Fresh(env, s, heard) && t.settings == s.settings
    requires forall u | u in t.host :: u in s.host && t.host[u] == s.host[u] && u in t.docs && t.docs[u] == s.docs[u]
    ensures Fresh(env, t, heard)
  {
    forall u | u in t.host ensures u in t.docs && FreshAt(env, t, heard, u) {
      assert FreshAt(env, s, heard, u);
      if !IsFailure(s.host[u].diagnostics) {
        MappedCarriesOver(env, s, heard, t, heard, u);
      }
    }
  }

  lemma MappedCarriesOver(env: Env, s: Session, heard: set<Heard>, t: Session, heard': set<Heard>, u: Uri)
    requires Sensible(env) && u in s.docs && u in s.host && IsMapped(env, s, heard, u, s.host[u].diagnostics)
    requires u in t.docs && t.docs[u] == s.docs[u] && t.settings == s.settings && heard <= heard'
    ensures IsMapped(env, t, heard', u, s.host[u].diagnostics)
  {
    var kind := FixedKind(env, env.fileOf(u));
    var p := Project(env, s.docs[u].text, kind, s.settings).value;
    var reported :| Reported(env, s, heard, u, reported) && s.host[u].diagnostics == MapAll(p, kind, reported);
    assert Reported(env, t, heard', u, reported);
  }

  lemma EditorFresh(env: Env, w: World, step: EditorStep)
    requires Sensible(env) && EditorMay(w, step) && FreshInv(env, w)
    ensures FreshInv(env, DoEditor(env, w, step))
  {
    var w' := DoEditor(env, w, step);
    assert w.named <= w'.named;
    if Functional(w'.named) {
      StaysFreshEditor(env, w, step);
    }
  }

  lemma StaysFreshEditor(env: Env, w: World, step: EditorStep)
    requires Sensible(env) && EditorMay(w, step) && Fresh(env, w.s, w.heard)
    ensures Fresh(env, DoEditor(env, w, step).s, w.heard) && DoEditor(env, w, step).heard == w.heard
  {
    var t := DoEditor(env, w, step).s;
    match step
    case Open(_, _, _) => StaysFresh(env, w.s, t, w.heard);
    case Change(_, _, _) => StaysFresh(env, w.s, t, w.heard);
    case Save(_) => StaysFresh(env, w.s, t, w.heard);
    case Close(_) => StaysFresh(env, w.s, t, w.heard);
    case Configure(_, _) =>
    case ChangeFolders(_, _, _) =>
  }

  lemma FailureFresh(env: Env, s: Session, heard: set<Heard>, u: Uri, version: int32, message: string)
    requires Sensible(env) && Fresh(env, s, heard)
    ensures Fresh(env, HostFailure(env, s, u, version, message), heard)
  {
    var t := HostFailure(env, s, u, version, message);
    forall v | v in t.host ensures v in t.docs && FreshAt(env, t, heard, v) {
      if v == u && t != s {
        assert t.host[u].diagnostics == [FailureDiagnostic(message)];
      } else {
        assert FreshAt(env, s, heard, v);
        if !IsFailure(s.host[v].diagnostics) {
          MappedCarriesOver(env, s, heard, t, heard, v);
        }
      }
    }
  }

  lemma SyncFresh(env: Env, w: World, step: SyncStep)
    requires Sensible(env) && SyncMay(w, step) && FreshInv(env, w)
    ensures FreshInv(env, DoSync(env, w, step))
  {
    if Functional(w.named) {
      match step
      case Send(ok) => SendFresh(env, w, ok);
      case ReportFailure => FailureFresh(env, w.s, w.heard, w.section.uri, w.section.version, w.section.message);
      case _ => StaysFresh(env, w.s, DoSync(env, w, step).s, w.heard);
    }
  }

  lemma SendFresh(env: Env, w: World, ok: bool)
    requires Sensible(env) && w.section.Sending? && w.section.id in w.s.processes && Fresh(env, w.s, w.heard)
    ensures Fresh(env, DoSend(env, w, ok).s, w.heard)
  {
    var job := w.section.job;
    var rest := w.s.processes[w.section.id].openDocs - (if w.section.prior.Some? then {w.section.prior.value} else {});
    var sent := SetOpened(w.s, w.section.id, rest);
    StaysFresh(env, w.s, sent, w.heard);
    FailureFresh(env, sent, w.heard, job.uri, job.doc.version, Message(job.kind, SendFailed));
    StaysFresh(env, if ok then w.s else HostFailure(env, sent, job.uri, job.doc.version, Message(job.kind, SendFailed)),
               DoSend(env, w, ok).s, w.heard);
  }

  /** A current route was built from the text its document has now, as long as versions are not reused. */
  lemma CurrentRouteIsFresh(env: Env, w: World, name: string)
    requires Sensible(env) && RouteInv(env, w) && Functional(w.named)
    requires name in w.s.routes && w.s.routes[name].epoch == w.s.epoch
    requires var r := w.s.routes[name]; r.source in w.s.docs && w.s.docs[r.source].version == r.version
    ensures var r := w.s.routes[name];
            r.kind == FixedKind(env, env.fileOf(r.source)) && name == VirtualName(env.fileOf(r.source), r.version, r.kind) &&
            Project(env, w.s.docs[r.source].text, r.kind, w.s.settings) == Some(r.project) && r.project.safe
  {
    assert RouteOk(env, w, name);
    var r := w.s.routes[name];
    var text :| BuiltFrom(env, w, r, text);
    var old', now := Named(r.source, r.version, text), Named(r.source, r.version, w.s.docs[r.source].text);
    assert old' in w.named && now in w.named;
  }

  lemma PublishFresh(env: Env, w: World, kind: Host, name: string, version: nat, ds: seq<Diagnostic>)
    requires Sensible(env) && RouteInv(env, w) && Functional(w.named) && Fresh(env, w.s, w.heard)
    ensures Fresh(env, BackendPublish(env, w.s, kind, name, version, ds), w.heard + {Heard(kind, name, ds)})
  {
    var t, heard := BackendPublish(env, w.s, kind, name, version, ds), w.heard + {Heard(kind, name, ds)};
    if RouteCurrent(w.s, kind, name, version) {
      CurrentRouteIsFresh(env, w, name);
    }
    forall v | v in t.host ensures v in t.docs && FreshAt(env, t, heard, v) {
      if RouteCurrent(w.s, kind, name, version) && v == w.s.routes[name].source {
        assert Reported(env, t, heard, v, ds);
        assert IsMapped(env, t, heard, v, MapAll(w.s.routes[name].project, kind, ds));
      } else {
        assert FreshAt(env, w.s, w.heard, v);
        if !IsFailure(w.s.host[v].diagnostics) {
          MappedCarriesOver(env, w.s, w.heard, t, heard, v);
        }
      }
    }
  }

  lemma OtherFresh(env: Env, w: World, step: OtherStep)
    requires Sensible(env) && RouteInv(env, w) && OtherMay(w, step) && FreshInv(env, w)
    ensures FreshInv(env, DoOther(env, w, step))
  {
    if Functional(w.named) {
      match step
      case BackendPublishes(kind, name, version, ds) => PublishFresh(env, w, kind, name, version, ds);
      case ReportsFailure(u, version, message) => FailureFresh(env, w.s, w.heard, u, version, message);
      case _ => StaysFresh(env, w.s, DoOther(env, w, step).s, w.heard);
    }
  }
}
