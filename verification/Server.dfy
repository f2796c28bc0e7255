/** The server object. Each method is one section under `mu`, or what a section under `syncMu` does to the maps; its
    postcondition is the step that the protocol takes. */
module Servers {
  import opened Options
  import opened Projections
  import opened Mapping
  import opened Sessions

  class Server {
    const env: Env
    var docs: map<Uri, Document>
    var host: map<Uri, HostResult>
    var settings: Settings
    var folders: seq<string>
    var epoch: nat
    var routes: map<string, Route>
    var backends: map<string, nat>
    var processes: map<nat, Process>
    var log: seq<Event>

    constructor (env: Env, settings: Settings, folders: seq<string>)
      ensures this.env == env
      ensures Snapshot() == Session(map[], map[], settings, folders, 0, map[], map[], map[], [])
    {
      this.env := env;
      docs, host, this.settings, this.folders, epoch := map[], map[], settings, folders, 0;
      routes, backends, processes, log := map[], map[], map[], [];
    }

    function Snapshot(): Session
      reads this
    {
      Session(docs, host, settings, folders, epoch, routes, backends, processes, log)
    }

    // ----- showing diagnostics -----

    method Publish(u: Uri)
      requires u in docs
      modifies this`log
      ensures Snapshot() == Sessions.Publish(env, old(Snapshot()), u)
    {
      var doc := docs[u];
      var shown := env.syntax(env.fileOf(u), doc.text, settings, folders);
      if u in host && host[u].version == doc.version {
        shown := shown + host[u].diagnostics;
      } else {
        assert shown == shown + [];
      }
      log := log + [Published(u, doc.version, shown)];
    }

    method Republish() returns (ghost order: seq<Uri>)
      modifies this`log
      ensures Visits(order, docs.Keys)
      ensures Snapshot() == Sessions.Republish(env, old(Snapshot()), order)
    {
      order := [];
      var left := docs.Keys;
      while left != {}
        invariant left <= docs.Keys
        invariant forall u | u in docs :: u in left || u in order
        invariant forall i | 0 <= i < |order| :: order[i] in docs && order[i] !in left
        invariant forall i, j | 0 <= i < j < |order| :: order[i] != order[j]
        invariant Snapshot() == Sessions.Republish(env, old(Snapshot()), order)
        decreases left
      {
        var u :| u in left;
        Publish(u);
        RepublishOneMore(env, old(Snapshot()), order, u);
        order := order + [u];
        left := left - {u};
      }
    }

    // ----- what the editor asks for -----

    method DidOpen(u: Uri, text: Text, version: int32)
      modifies this
      ensures Snapshot() == Sessions.DidOpen(env, old(Snapshot()), u, text, version)
    {
      docs := docs[u := Document(text, version)];
      host := host - {u};
      log := log + [Opened(u)];
      Publish(u);
    }

    method DidChange(u: Uri, version: int32, changes: seq<Text>) returns (changed: bool)
      modifies this
      ensures changed == Newer(old(Snapshot()), u, version)
      ensures Snapshot() == Sessions.DidChange(env, old(Snapshot()), u, version, changes)
    {
      if u !in docs || version <= docs[u].version {
        return false;
      }
      var text := docs[u].text;
      for i := 0 to |changes|
        invariant text == LastText(docs[u].text, changes[..i])
      {
        text := changes[i];
      }
      assert changes[..|changes|] == changes;
      docs := docs[u := Document(text, version)];
      host := host - {u};
      Publish(u);
      return true;
    }

    method DidSave(u: Uri)
      modifies this
      ensures Snapshot() == Sessions.DidSave(env, old(Snapshot()), u)
    {
      if u in docs {
        Publish(u);
      }
    }

    method DidClose(u: Uri)
      modifies this
      ensures Snapshot() == Sessions.DidClose(old(Snapshot()), u)
    {
      docs := docs - {u};
      host := host - {u};
      log := log + [Cleared(u)];
    }

    method DidChangeConfiguration(newSettings: Settings) returns (ghost order: seq<Uri>)
      modifies this
      ensures Visits(order, old(docs).Keys)
      ensures Snapshot() == Sessions.DidChangeConfiguration(env, old(Snapshot()), newSettings, order)
    {
      settings := newSettings;
      epoch := epoch + 1;
      host := map[];
      order := Republish();
    }

    method DidChangeWorkspaceFolders(removed: seq<string>, added: seq<string>) returns (ghost order: seq<Uri>)
      modifies this
      ensures Visits(order, old(docs).Keys)
      ensures Snapshot() == Sessions.DidChangeWorkspaceFolders(env, old(Snapshot()), removed, added, order)
    {
      for k := 0 to |removed|
        invariant RemoveAll(folders, removed[k..]) == RemoveAll(old(folders), removed)
        invariant Snapshot() == old(Snapshot()).(folders := folders)
      {
        assert removed[k..][1..] == removed[k+1..];
        RemoveFolder(removed[k]);
      }
      for k := 0 to |added|
        invariant folders == RemoveAll(old(folders), removed) + added[..k]
        invariant Snapshot() == old(Snapshot()).(folders := folders)
      {
        folders := folders + [added[k]];
      }
      assert added[..|added|] == added;
      host := map[];
      epoch := epoch + 1;
      order := Republish();
    }

    /** Drops the first folder equal to `path`, if there is one. */
    method RemoveFolder(path: string)
      modifies this`folders
      ensures folders == RemoveFirst(old(folders), path)
    {
      for i := 0 to |folders|
        invariant folders == old(folders)
        invariant RemoveFirst(folders, path) == folders[..i] + RemoveFirst(folders[i..], path)
      {
        assert folders[i..][1..] == folders[i+1..];
        if folders[i] == path {
          folders := folders[..i] + folders[i+1..];
          return;
        }
      }
    }

    // ----- what backends report -----

    /** Maps what a backend reported, dropping what cannot be placed. */
    static method MapDiagnostics(project: Projection, kind: Host, ds: seq<Diagnostic>) returns (mapped: seq<Diagnostic>)
      ensures mapped == MapAll(project, kind, ds)
    {
      mapped := [];
      for i := 0 to |ds|
        invariant mapped == MapAll(project, kind, ds[..i])
      {
        assert ds[..i+1][..i] == ds[..i];
        var result, ok := MapDiagnostic(project, ds[i]);
        if ok {
          if result.source == "" {
            result := result.(source := KindName(kind));
          }
          mapped := mapped + [result];
        }
      }
      assert ds[..|ds|] == ds;
    }

    method PublishDiagnostics(kind: Host, name: string, version: nat, ds: seq<Diagnostic>)
      modifies this
      ensures Snapshot() == BackendPublish(env, old(Snapshot()), kind, name, version, ds)
    {
      if name !in routes {
        return;
      }
      var r := routes[name];
      if r.epoch != epoch || r.kind != kind || (version != 0 && Wire(r.version) != version) {
        return;
      }
      if r.source !in docs || docs[r.source].version != r.version {
        return;
      }
      var mapped := MapDiagnostics(r.project, kind, ds);
      host := host[r.source := HostResult(docs[r.source].version, mapped)];
      Publish(r.source);
    }

    method HostFailure(u: Uri, version: int32, message: string)
      modifies this
      ensures Snapshot() == Sessions.HostFailure(env, old(Snapshot()), u, version, message)
    {
      if u in docs && docs[u].version == version {
        host := host[u := HostResult(version, [FailureDiagnostic(message)])];
        Publish(u);
      }
    }

    // ----- syncHost -----

    /** Deletes every route of a document under a backend key. */
    method DeleteRoutes(u: Uri, key: string) returns (prior: Option<string>)
      modifies this`routes
      ensures routes == map n | n in old(routes) && !Candidate(old(Snapshot()), u, key, n) :: old(routes)[n]
      ensures PriorOf(old(Snapshot()), u, key, prior)
    {
      prior := None;
      var left := routes.Keys;
      while left != {}
        invariant left <= old(routes).Keys
        invariant routes == map n | n in old(routes) && (n in left || !Candidate(old(Snapshot()), u, key, n)) :: old(routes)[n]
        invariant prior.None? ==> forall n | n in old(routes) && n !in left :: !Candidate(old(Snapshot()), u, key, n)
        invariant prior.Some? ==> Candidate(old(Snapshot()), u, key, prior.value)
        decreases left
      {
        var n :| n in left;
        if routes[n].source == u && routes[n].key == key {
          prior := Some(n);
          routes := routes - {n};
        }
        left := left - {n};
      }
    }

    method InstallRoute(job: Job) returns (installed: bool, prior: Option<string>)
      modifies this`routes
      ensures installed == StillCurrent(old(Snapshot()), job)
      ensures installed ==> PriorOf(old(Snapshot()), job.uri, job.key, prior)
      ensures Snapshot() == Sessions.InstallRoute(env, old(Snapshot()), job)
    {
      if job.uri !in docs || docs[job.uri].version != job.doc.version || epoch != job.epoch {
        return false, None;
      }
      installed := true;
      prior := DeleteRoutes(job.uri, job.key);
      routes := routes[JobName(env, job) := JobRoute(job)];
    }

    method Stop(id: nat)
      requires id in processes
      modifies this`processes
      ensures Snapshot() == Sessions.Stop(old(Snapshot()), id)
    {
      processes := processes[id := processes[id].(closed := true)];
    }

    method SendProjection(job: Job, id: nat, prior: Option<string>, ok: bool)
      requires id in processes
      modifies this
      ensures Snapshot() == Sessions.SendProjection(env, old(Snapshot()), job, id, prior, ok)
    {
      var b := processes[id];
      if prior.Some? {
        b := b.(openDocs := b.openDocs - {prior.value});
      } else {
        assert b.openDocs - {} == b.openDocs;
      }
      processes := processes[id := b];
      if !ok {
        HostFailure(job.uri, job.doc.version, Message(job.kind, SendFailed));
        backends := backends - {job.key};
        Stop(id);
        return;
      }
      processes := processes[id := b.(openDocs := b.openDocs[JobName(env, job) := job.project.text])];
    }

    // ----- the other goroutines -----

    method CloseHost(u: Uri) returns (victim: Option<string>)
      modifies this
      ensures u !in old(docs) ==> Victim(old(Snapshot()), u, victim)
      ensures u in old(docs) ==> Snapshot() == old(Snapshot())
      ensures u !in old(docs) ==> Snapshot() == Sessions.CloseHost(old(Snapshot()), u, victim)
    {
      victim := None;
      if u in docs {
        return;
      }
      var left := routes.Keys;
      while left != {}
        invariant left <= routes.Keys && victim.None? && Snapshot() == old(Snapshot())
        invariant forall n | n in routes && n !in left :: routes[n].source != u
        decreases left
      {
        var n :| n in left;
        if routes[n].source == u {
          victim := Some(n);
          break;
        }
        left := left - {n};
      }
      if victim.Some? {
        var key := routes[victim.value].key;
        routes := routes - {victim.value};
        if key in backends && backends[key] in processes {
          var id := backends[key];
          processes := processes[id := processes[id].(openDocs := processes[id].openDocs - {victim.value})];
        }
      }
    }

    /** Stops every registered backend. */
    method CloseBackends()
      requires forall key | key in backends :: backends[key] in processes
      modifies this`processes
      ensures Snapshot() == StopAll(old(Snapshot()))
    {
      var left := backends.Keys;
      ghost var done: set<nat> := {};
      while left != {}
        invariant left <= backends.Keys && processes.Keys == old(processes).Keys
        invariant done <= backends.Values && forall key | key in backends :: key in left || backends[key] in done
        invariant forall id | id in processes ::
                    processes[id] == if id in done then old(processes)[id].(closed := true) else old(processes)[id]
        decreases left
      {
        var key :| key in left;
        Stop(backends[key]);
        left, done := left - {key}, done + {backends[key]};
      }
      assert done == backends.Values;
    }

    method ReconfigureBackends() returns (again: set<Uri>)
      requires forall key | key in backends :: backends[key] in processes
      modifies this
      ensures Snapshot() == Reconfigure(old(Snapshot())) && again == docs.Keys
    {
      CloseBackends();
      backends := map[];
      routes := map[];
      again := docs.Keys;
    }

    /** Removes and returns the routes of one backend. */
    method TakeRoutes(key: string) returns (taken: seq<Route>)
      modifies this`routes
      ensures routes == map n | n in old(routes) && old(routes)[n].key != key :: old(routes)[n]
      ensures forall r :: r in taken <==> exists n :: n in old(routes) && old(routes)[n] == r && r.key == key
    {
      taken := [];
      var left := routes.Keys;
      while left != {}
        invariant left <= old(routes).Keys
        invariant routes == map n | n in old(routes) && (n in left || old(routes)[n].key != key) :: old(routes)[n]
        invariant forall r :: r in taken <==> exists n :: n in old(routes).Keys - left && old(routes)[n] == r && r.key == key
        decreases left
      {
        var n :| n in left;
        if routes[n].key == key {
          taken := taken + [routes[n]];
          routes := routes - {n};
        }
        left := left - {n};
      }
    }

    /** A backend's connection has ended. Returns the routes it served, whose documents are told next. */
    method BackendGone(key: string, id: nat) returns (affected: seq<Route>)
      requires id in processes
      modifies this
      ensures Snapshot() == Disconnect(old(Snapshot()), key, id)
      ensures forall r :: r in affected <==>
                old(key in backends && backends[key] == id) && exists n :: n in old(routes) && old(routes)[n] == r && r.key == key
    {
      affected := [];
      if key !in backends || backends[key] != id {
        return;
      }
      backends := backends - {key};
      affected := TakeRoutes(key);
      Stop(id);
    }
  }

  lemma {:induction false} RepublishOneMore(env: Env, s: Session, order: seq<Uri>, u: Uri)
    requires (forall i | 0 <= i < |order| :: order[i] in s.docs) && u in s.docs
    ensures forall i | 0 <= i < |order + [u]| :: (order + [u])[i] in s.docs
    ensures Sessions.Republish(env, s, order + [u]) == Sessions.Publish(env, Sessions.Republish(env, s, order), u)
    decreases |order|
  {
    if order != [] {
      assert (order + [u])[1..] == order[1..] + [u];
      RepublishOneMore(env, Sessions.Publish(env, s, order[0]), order[1..], u);
    }
  }
}
