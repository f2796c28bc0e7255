/** The guarantees of the session protocol, over every run. */
module Safety {
  import opened Options
  import opened Projections
  import opened Mapping
  import opened Sessions
  import opened Names
  import opened Protocol
  import opened Publication
  import opened Invariants
  import opened RouteProofs
  import opened BackendProofs
  import opened Freshness

  ghost predicate Good(env: Env, w: World)
    requires Sensible(env)
  {
    Inv(env, w) && LogMatches(w.s) && CacheCurrent(w.s) && FreshInv(env, w)
  }

  lemma GoodStep(env: Env, w: World, step: Step)
    requires Sensible(env) && Good(env, w) && Enabled(w, step)
    ensures Good(env, Do(env, w, step))
  {
    match step
    case Editor(e) =>
      EditorRoutes(env, w, e); EditorBackends(env, w, e); EditorLog(env, w, e); EditorCache(env, w, e);
      EditorFresh(env, w, e);
    case Sync(y) =>
      SyncRoutes(env, w, y); SyncBackends(env, w, y); SyncLog(env, w, y); SyncCache(env, w, y); SyncFresh(env, w, y);
    case Other(o) =>
      OtherRoutes(env, w, o); OtherBackends(env, w, o); OtherLog(env, w, o); OtherCache(env, w, o); OtherFresh(env, w, o);
  }

  lemma {:induction false} GoodRun(env: Env, w: World, steps: seq<Step>, w': World)
    requires Sensible(env) && Good(env, w) && Run(env, w, steps, w')
    ensures Good(env, w')
    decreases |steps|
  {
    if steps != [] {
      GoodStep(env, w, steps[0]);
      GoodRun(env, Do(env, w, steps[0]), steps[1..], w');
    }
  }

  lemma ReachableGood(env: Env, w: World)
    requires Sensible(env) && Reachable(env, w)
    ensures Good(env, w)
  {
    var w0, steps :| Initial(w0) && Run(env, w0, steps, w);
    GoodRun(env, w0, steps, w);
  }

  /** No stale host result. A backend's diagnostics change anything, what is cached or what is shown, only through a route of the
      current epoch and of the document's current version; and if no version ever named two texts, the projection that maps them
      was made from exactly the document's current text, under the current settings. */
  lemma NoStaleResult(env: Env, w: World, kind: Host, name: string, version: nat, ds: seq<Diagnostic>)
    requires Sensible(env) && Reachable(env, w)
    requires BackendPublish(env, w.s, kind, name, version, ds) != w.s
    ensures name in w.s.routes
    ensures var r := w.s.routes[name];
            r.epoch == w.s.epoch && r.kind == kind && r.source in w.s.docs && w.s.docs[r.source].version == r.version &&
            name == VirtualName(env.fileOf(r.source), r.version, r.kind) && (version == 0 || version == Wire(r.version)) &&
            (Functional(w.named) ==> Project(env, w.s.docs[r.source].text, r.kind, w.s.settings) == Some(r.project))
  {
    ReachableGood(env, w);
    assert RouteOk(env, w, name);
    if Functional(w.named) {
      CurrentRouteIsFresh(env, w, name);
    }
  }

  /** Reconfiguration is complete. Once no reconfiguration is pending, every route carries the current epoch and is the only
      one of its document, every registered backend runs under its own key with the current settings, and the route of a
      closed document is about to be removed. */
  lemma ReconfigurationComplete(env: Env, w: World)
    requires Sensible(env) && Reachable(env, w) && ReconfigureTask !in w.tasks
    ensures forall n | n in w.s.routes :: w.s.routes[n].epoch == w.s.epoch
    ensures forall m, n | m in w.s.routes && n in w.s.routes && w.s.routes[m].source == w.s.routes[n].source :: m == n
    ensures forall key | key in w.s.backends ::
              w.s.backends[key] in w.s.processes &&
              w.s.processes[w.s.backends[key]].key == key && w.s.processes[w.s.backends[key]].settings == w.s.settings
    ensures forall n | n in w.s.routes :: w.s.routes[n].source in w.s.docs || CloseHostTask(w.s.routes[n].source) in w.tasks
  {
    ReachableGood(env, w);
    forall n | n in w.s.routes
      ensures w.s.routes[n].epoch == w.s.epoch
      ensures w.s.routes[n].source in w.s.docs || CloseHostTask(w.s.routes[n].source) in w.tasks
    {
      assert RouteOk(env, w, n);
    }
    forall m, n | m in w.s.routes && n in w.s.routes && w.s.routes[m].source == w.s.routes[n].source ensures m == n {
      OneRoute(env, w, m, n);
    }
    forall key | key in w.s.backends
      ensures w.s.backends[key] in w.s.processes &&
              w.s.processes[w.s.backends[key]].key == key && w.s.processes[w.s.backends[key]].settings == w.s.settings
    {
      assert BackendOk(w, key);
    }
  }

  /** Once no reconfiguration is pending, the backend that serves a route runs the executable set for the document's
      language, in the document's own workspace root, although both are found by one concatenated key. */
  lemma RouteServedByItsOwn(env: Env, w: World, n: string)
    requires Sensible(env) && Reachable(env, w) && ReconfigureTask !in w.tasks
    requires n in w.s.routes && w.s.routes[n].key in w.s.backends
    ensures w.s.backends[w.s.routes[n].key] in w.s.processes
    ensures var r := w.s.routes[n];
            var p := w.s.processes[w.s.backends[r.key]];
            p.kind == r.kind && p.path == BackendPath(w.s.settings, r.kind) &&
            p.root == env.rootOf(env.fileOf(r.source), w.s.settings, w.s.folders)
  {
    ReachableGood(env, w);
    var r := w.s.routes[n];
    var id := w.s.backends[r.key];
    assert RouteOk(env, w, n) && BackendOk(w, r.key) && Kept(w, id);
    var p := w.s.processes[id];
    KeyInjective(p.kind, p.root, p.path, r.kind, env.rootOf(env.fileOf(r.source), w.s.settings, w.s.folders),
                 BackendPath(w.s.settings, r.kind));
  }

  /** In every state there is at most one route for a source and a backend, so the route a new one supersedes is the same
      whatever order the map is searched in; a route's name tells its file, version and language; and with no reconfiguration
      pending and no document being sent, whatever is open in a registered backend is what a route of that backend names. */
  lemma RoutesAreUnique(env: Env, w: World)
    requires Sensible(env) && Reachable(env, w)
    ensures forall u, key, a, b | PriorOf(w.s, u, key, a) && PriorOf(w.s, u, key, b) :: a == b
    ensures forall m, n | m in w.s.routes && n in w.s.routes ::
              m == n || !(env.fileOf(w.s.routes[m].source) == env.fileOf(w.s.routes[n].source) &&
                          w.s.routes[m].version == w.s.routes[n].version)
    ensures ReconfigureTask !in w.tasks && !w.section.Sending? ==>
              forall key, name | OpenIn(w.s, key, name) :: name in w.s.routes && w.s.routes[name].key == key
  {
    ReachableGood(env, w);
    forall u, key, a, b | PriorOf(w.s, u, key, a) && PriorOf(w.s, u, key, b) ensures a == b {
      assert a.Some? ==> Candidate(w.s, u, key, a.value);
      assert b.Some? ==> Candidate(w.s, u, key, b.value);
    }
    forall m, n | m in w.s.routes && n in w.s.routes &&
                  env.fileOf(w.s.routes[m].source) == env.fileOf(w.s.routes[n].source) &&
                  w.s.routes[m].version == w.s.routes[n].version
      ensures m == n
    {
      assert RouteOk(env, w, m) && RouteOk(env, w, n);
    }
    if ReconfigureTask !in w.tasks && !w.section.Sending? {
      forall key, name | OpenIn(w.s, key, name) ensures name in w.s.routes && w.s.routes[name].key == key {
        assert OpenOk(w, key, name);
      }
    }
  }

  /** No backend process is lost: at every point of every run each one ever started is registered under its own key or has
      been stopped, and one that is registered and running is watched. */
  lemma BackendsConserved(env: Env, w: World, id: nat)
    requires Sensible(env) && Reachable(env, w) && id in w.s.processes
    ensures var p := w.s.processes[id];
            p.closed || (p.key in w.s.backends && w.s.backends[p.key] == id && WatchTask(p.key, id) in w.tasks)
  {
    ReachableGood(env, w);
    assert Kept(w, id);
    var p := w.s.processes[id];
    if !p.closed {
      assert BackendOk(w, p.key);
    }
  }

  /** What is published, over a whole run. Every cached host result is of the current version of an open document; versions
      published for a document never decrease within one of its sessions; and between the clear on close and the next open
      nothing is published. */
  lemma PublicationSafe(env: Env, w: World, i: nat, j: nat)
    requires Sensible(env) && Reachable(env, w)
    requires i < j < |w.s.log| && w.s.log[i].uri == w.s.log[j].uri && w.s.log[j].Published?
    requires forall k | i < k < j :: w.s.log[k] != Opened(w.s.log[i].uri)
    ensures !w.s.log[i].Cleared?
    ensures w.s.log[i].Published? ==> w.s.log[i].version <= w.s.log[j].version
    ensures forall u | u in w.s.host :: u in w.s.docs && w.s.host[u].version == w.s.docs[u].version
  {
    ReachableGood(env, w);
    var u := w.s.log[i].uri;
    if w.s.log[i].Published? {
      VersionsNeverDecrease(w.s.log, i, j, u);
    }
    if w.s.log[i].Cleared? {
      NothingAfterClose(w.s.log, i, j, u);
    }
  }

  /** When a backend is lost, what may still come in about a document that was routed to it changes nothing, nor does what comes
      in about any document once all backends have been reconfigured. */
  lemma LateReportIgnored(env: Env, w: World, key: string, id: nat, kind: Host, name: string, version: nat, ds: seq<Diagnostic>)
    requires name in w.s.routes
    ensures id in w.s.processes && Running(w, key, id) && w.s.routes[name].key == key ==>
              var t := DoDisconnects(w, key, id).s; BackendPublish(env, t, kind, name, version, ds) == t
    ensures var t := DoReconfigures(w).s; BackendPublish(env, t, kind, name, version, ds) == t
  {
  }

  // ----- from the backend's report to the editor -----

  lemma {:induction false} MapAllSound(p: Projection, kind: Host, ds: seq<Diagnostic>, d: Diagnostic) returns (reported: Diagnostic)
    requires Faithful(p) && d in MapAll(p, kind, ds)
    ensures reported in ds && SoundlyMapped(p, reported.range, d.range) && d.message == reported.message
    decreases |ds|
  {
    var last := ds[|ds|-1];
    var init := ds[..|ds|-1];
    if d in MapAll(p, kind, init) {
      reported := MapAllSound(p, kind, init, d);
    } else {
      MappingSound(p, last);
      reported := last;
    }
  }

  /** `kept` numbers, in order, exactly those of the reported diagnostics that can be placed, and `shown` are those, each with the
      source it named, or the language where it named none. */
  ghost predicate KeptInOrder(p: Projection, kind: Host, ds: seq<Diagnostic>, kept: seq<nat>, shown: seq<Diagnostic>) {
    && |kept| == |shown| && (forall i, j | 0 <= i < j < |kept| :: kept[i] < kept[j])
    && (forall k: nat :: k in kept <==> k < |ds| && Mapped(p, ds[k]).Some?)
    && forall i | 0 <= i < |kept| :: ShownAs(p, kind, ds, kept[i], shown[i])
  }

  ghost predicate ShownAs(p: Projection, kind: Host, ds: seq<Diagnostic>, k: nat, shown: Diagnostic) {
    && k < |ds| && Mapped(p, ds[k]).Some?
    && shown.range == Mapped(p, ds[k]).value.range && shown.message == ds[k].message
    && shown.source == if ds[k].source == "" then KindName(kind) else ds[k].source
  }

  /** Every reported diagnostic that can be placed is kept, in the order in which they were reported, and no other. */
  lemma {:induction false} MapAllExactly(p: Projection, kind: Host, ds: seq<Diagnostic>) returns (kept: seq<nat>)
    ensures KeptInOrder(p, kind, ds, kept, MapAll(p, kind, ds))
    decreases |ds|
  {
    kept := [];
    if ds != [] {
      var init, last := ds[..|ds|-1], ds[|ds|-1];
      kept := MapAllExactly(p, kind, init);
      var mapped, before := Mapped(p, last), MapAll(p, kind, init);
      if mapped.Some? {
        var d := if mapped.value.source == "" then mapped.value.(source := KindName(kind)) else mapped.value;
        assert MapAll(p, kind, ds) == before + [d];
        OneMoreKept(p, kind, init, last, kept, before, d);
        assert init + [last] == ds;
        kept := kept + [|init|];
      } else {
        OneDropped(p, kind, init, last, kept, before);
        assert init + [last] == ds;
      }
    }
  }

  lemma StillShown(p: Projection, kind: Host, ds: seq<Diagnostic>, last: Diagnostic, kept: seq<nat>, shown: seq<Diagnostic>)
    requires KeptInOrder(p, kind, ds, kept, shown)
    ensures forall i | 0 <= i < |kept| :: ShownAs(p, kind, ds + [last], kept[i], shown[i]) && kept[i] < |ds|
  {
    forall i | 0 <= i < |kept| ensures ShownAs(p, kind, ds + [last], kept[i], shown[i]) && kept[i] < |ds| {
      assert ShownAs(p, kind, ds, kept[i], shown[i]) && (ds + [last])[kept[i]] == ds[kept[i]];
    }
  }

  lemma OneMoreKept(p: Projection, kind: Host, ds: seq<Diagnostic>, last: Diagnostic, kept: seq<nat>, shown: seq<Diagnostic>,
                    d: Diagnostic)
    requires KeptInOrder(p, kind, ds, kept, shown) && ShownAs(p, kind, ds + [last], |ds|, d)
    ensures KeptInOrder(p, kind, ds + [last], kept + [|ds|], shown + [d])
  {
    StillShown(p, kind, ds, last, kept, shown);
    var all := ds + [last];
    forall k: nat ensures k in kept + [|ds|] <==> k < |all| && Mapped(p, all[k]).Some? {
      assert k in kept + [|ds|] <==> k in kept || k == |ds|;
      assert k < |ds| ==> all[k] == ds[k];
    }
  }

  lemma OneDropped(p: Projection, kind: Host, ds: seq<Diagnostic>, last: Diagnostic, kept: seq<nat>, shown: seq<Diagnostic>)
    requires KeptInOrder(p, kind, ds, kept, shown) && Mapped(p, last).None?
    ensures KeptInOrder(p, kind, ds + [last], kept, shown)
  {
    StillShown(p, kind, ds, last, kept, shown);
    var all := ds + [last];
    forall k: nat ensures k in kept <==> k < |all| && Mapped(p, all[k]).Some? {
      assert k < |ds| ==> all[k] == ds[k];
    }
  }

  /** Some diagnostic that a backend published about this version of the document, carried back soundly through `p`. */
  ghost predicate ShownFrom(env: Env, w: World, u: Uri, p: Projection, d: Diagnostic)
    requires u in w.s.docs
  {
    exists ds, reported: Diagnostic :: Reported(env, w.s, w.heard, u, ds) && reported in ds &&
                           SoundlyMapped(p, reported.range, d.range) && d.message == reported.message
  }

  /** Everything a backend contributes to what the editor is shown speaks of text the document has now. In every reachable
      state in which no version was reused, each cached host diagnostic is a notice of failure; or a backend published it
      about this version, and it lies in one literal of the projection of the document's current text, on lines that this
      projection leaves unchanged. */
  lemma ShownTextIsCurrent(env: Env, w: World, u: Uri, d: Diagnostic)
    requires Sensible(env) && Reachable(env, w) && Functional(w.named)
    requires u in w.s.host && d in w.s.host[u].diagnostics
    ensures u in w.s.docs
    ensures var p := Project(env, w.s.docs[u].text, FixedKind(env, env.fileOf(u)), w.s.settings);
            (exists message :: d == FailureDiagnostic(message)) ||
            (p.Some? && p.value.source == w.s.docs[u].text && ShownFrom(env, w, u, p.value, d))
  {
    ReachableGood(env, w);
    assert FreshAt(env, w.s, w.heard, u);
    if !IsFailure(w.s.host[u].diagnostics) {
      var kind := FixedKind(env, env.fileOf(u));
      var p := Project(env, w.s.docs[u].text, kind, w.s.settings).value;
      var ds :| Reported(env, w.s, w.heard, u, ds) && w.s.host[u].diagnostics == MapAll(p, kind, ds);
      ProjectionFaithful(env.template(w.s.docs[u].text, kind, w.s.settings.schemas).value);
      var reported := MapAllSound(p, kind, ds, d);
    }
  }
}
