/** What the editor has asked for decides which documents are open with which text, and the settings and folders. */
module Requests {
  import opened Options
  import opened Sessions
  import opened Protocol
  import opened Invariants

  /** The editor's requests in a run. */
  function Asked(steps: seq<Step>): seq<EditorStep> {
    if steps == [] then []
    else
      var last := steps[|steps|-1];
      Asked(steps[..|steps|-1]) + if last.Editor? then [last.editor] else []
  }

  /** A document as the requests for it leave it: as it was opened last, unless it has been closed since, or as the last change
      with a greater version than it then had left it. The text of a change is the last one in it. */
  function AskedFor(asked: seq<EditorStep>, u: Uri): Option<Document> {
    if asked == [] then None
    else
      var before := AskedFor(asked[..|asked|-1], u);
      match asked[|asked|-1]
      case Open(v, text, version) => if v == u then Some(Document(text, version)) else before
      case Close(v) => if v == u then None else before
      case Change(v, version, changes) =>
        if v != u || before.None? || version <= before.value.version then before
        else Some(Document(if |changes| > 0 then changes[|changes|-1] else before.value.text, version))
      case _ => before
  }

  function AskedSettings(asked: seq<EditorStep>, settings: Settings): Settings {
    if asked == [] then settings
    else if asked[|asked|-1].Configure? then asked[|asked|-1].settings
    else AskedSettings(asked[..|asked|-1], settings)
  }

  /** The folders, each counted: a removal takes one away if there is one. */
  function AskedFolders(asked: seq<EditorStep>, folders: multiset<string>): multiset<string> {
    if asked == [] then folders
    else
      var before := AskedFolders(asked[..|asked|-1], folders);
      match asked[|asked|-1]
      case ChangeFolders(removed, added, _) => before - multiset(removed) + multiset(added)
      case _ => before
  }

  // ----- removing folders -----

  /** The first occurrence is removed, and nothing else. */
  lemma {:induction false} FirstRemoved(folders: seq<string>, path: string, i: nat)
    requires i < |folders| && folders[i] == path && path !in folders[..i]
    ensures RemoveFirst(folders, path) == folders[..i] + folders[i+1..]
    decreases i
  {
    if i > 0 {
      var rest := folders[1..];
      assert folders[0] in folders[..i] && rest[..i-1] == folders[..i][1..];
      FirstRemoved(rest, path, i - 1);
      assert [folders[0]] + (rest[..i-1] + rest[i..]) == folders[..i] + folders[i+1..];
    }
  }

  lemma {:induction false} OneRemoved(folders: seq<string>, path: string)
    ensures multiset(RemoveFirst(folders, path)) == multiset(folders) - multiset{path}
  {
    if folders != [] {
      var rest := folders[1..];
      assert folders == [folders[0]] + rest;
      if folders[0] != path {
        OneRemoved(rest, path);
      }
    }
  }

  lemma {:induction false} AllRemoved(folders: seq<string>, removed: seq<string>)
    ensures multiset(RemoveAll(folders, removed)) == multiset(folders) - multiset(removed)
    decreases |removed|
  {
    if removed != [] {
      var first, rest := removed[0], removed[1..];
      OneRemoved(folders, first);
      AllRemoved(RemoveFirst(folders, first), rest);
      assert removed == [first] + rest;
      assert multiset(removed) == multiset{first} + multiset(rest);
    }
  }

  // ----- every run -----

  ghost predicate AsAsked(w0: World, asked: seq<EditorStep>, w: World) {
    && (forall u :: DocumentAsked(asked, w.s, u))
    && w.s.settings == AskedSettings(asked, w0.s.settings)
    && multiset(w.s.folders) == AskedFolders(asked, multiset(w0.s.folders))
  }

  predicate DocumentAsked(asked: seq<EditorStep>, s: Session, u: Uri) {
    if u in s.docs then AskedFor(asked, u) == Some(s.docs[u]) else AskedFor(asked, u) == None
  }

  lemma AskedDocument(env: Env, asked: seq<EditorStep>, w: World, step: EditorStep, u: Uri)
    requires DocumentAsked(asked, w.s, u) && EditorMay(w, step)
    ensures DocumentAsked(asked + [step], DoEditor(env, w, step).s, u)
  {
    assert (asked + [step])[..|asked|] == asked;
  }

  lemma AskedRest(env: Env, w0: World, asked: seq<EditorStep>, w: World, step: EditorStep)
    requires AsAsked(w0, asked, w) && EditorMay(w, step)
    ensures var w' := DoEditor(env, w, step);
            && w'.s.settings == AskedSettings(asked + [step], w0.s.settings)
            && multiset(w'.s.folders) == AskedFolders(asked + [step], multiset(w0.s.folders))
  {
    assert (asked + [step])[..|asked|] == asked;
    if step.ChangeFolders? {
      AllRemoved(w.s.folders, step.removed);
    }
  }

  lemma AskedOnce(env: Env, w0: World, asked: seq<EditorStep>, w: World, step: EditorStep)
    requires AsAsked(w0, asked, w) && EditorMay(w, step)
    ensures AsAsked(w0, asked + [step], DoEditor(env, w, step))
  {
    forall u ensures DocumentAsked(asked + [step], DoEditor(env, w, step).s, u) {
      assert DocumentAsked(asked, w.s, u);
      AskedDocument(env, asked, w, step, u);
    }
    AskedRest(env, w0, asked, w, step);
  }

  predicate SameRequests(s: Session, t: Session) {
    t.docs == s.docs && t.settings == s.settings && t.folders == s.folders
  }

  lemma SyncAsksNothing(env: Env, w: World, step: SyncStep)
    requires Sensible(env) && SyncMay(w, step)
    ensures SameRequests(w.s, DoSync(env, w, step).s)
  {
  }

  lemma StopAsksNothing(w: World, key: string, id: nat)
    requires id in w.s.processes
    ensures SameRequests(w.s, DoDisconnects(w, key, id).s)
  {
  }

  lemma OtherAsksNothing(env: Env, w: World, step: OtherStep)
    requires OtherMay(w, step)
    ensures SameRequests(w.s, DoOther(env, w, step).s)
  {
    match step
    case BackendPublishes(kind, name, wire, ds) => PublishShows(env, w, kind, name, wire, ds);
    case Disconnects(key, id) => StopAsksNothing(w, key, id);
    case ReportsFailure(u, version, message) => ReportShows(env, w, u, version, message);
    case _ =>
  }

  lemma StepAsAsked(env: Env, w0: World, before: seq<Step>, w: World, step: Step)
    requires Sensible(env) && AsAsked(w0, Asked(before), w) && Enabled(w, step)
    ensures AsAsked(w0, Asked(before + [step]), Do(env, w, step))
  {
    assert (before + [step])[..|before|] == before;
    match step
    case Editor(e) => AskedOnce(env, w0, Asked(before), w, e);
    case Sync(y) => SyncAsksNothing(env, w, y); StillAsAsked(w0, Asked(before), w, DoSync(env, w, y));
    case Other(o) => OtherAsksNothing(env, w, o); StillAsAsked(w0, Asked(before), w, DoOther(env, w, o));
  }

  lemma StillAsAsked(w0: World, asked: seq<EditorStep>, w: World, w': World)
    requires AsAsked(w0, asked, w) && SameRequests(w.s, w'.s)
    ensures AsAsked(w0, asked, w') && asked + [] == asked
  {
    forall u ensures DocumentAsked(asked, w'.s, u) {
      assert DocumentAsked(asked, w.s, u);
    }
  }

  lemma Regrouped(before: seq<Step>, steps: seq<Step>)
    requires steps != []
    ensures before + steps == before + [steps[0]] + steps[1..]
  {
  }

  lemma {:induction false} RunAsAsked(env: Env, w0: World, before: seq<Step>, w: World, steps: seq<Step>, w': World)
    requires Sensible(env) && AsAsked(w0, Asked(before), w) && Run(env, w, steps, w')
    ensures AsAsked(w0, Asked(before + steps), w')
    decreases |steps|
  {
    if steps == [] {
      assert before + steps == before;
    } else {
      StepAsAsked(env, w0, before, w, steps[0]);
      Regrouped(before, steps);
      RunAsAsked(env, w0, before + [steps[0]], Do(env, w, steps[0]), steps[1..], w');
    }
  }

  /** After every run, whatever backends and goroutines did meanwhile, the open documents, their texts and versions, the settings
      and the folders are what the editor asked for. */
  lemma SessionAsAsked(env: Env, w0: World, steps: seq<Step>, w: World)
    requires Sensible(env) && Initial(w0) && Run(env, w0, steps, w)
    ensures forall u :: if u in w.s.docs then AskedFor(Asked(steps), u) == Some(w.s.docs[u]) else AskedFor(Asked(steps), u) == None
    ensures w.s.settings == AskedSettings(Asked(steps), w0.s.settings)
    ensures multiset(w.s.folders) == AskedFolders(Asked(steps), multiset(w0.s.folders))
  {
    assert AsAsked(w0, Asked([]), w0);
    RunAsAsked(env, w0, [], w0, steps, w);
    assert [] + steps == steps;
    forall u ensures if u in w.s.docs then AskedFor(Asked(steps), u) == Some(w.s.docs[u]) else AskedFor(Asked(steps), u) == None {
      assert DocumentAsked(Asked(steps), w.s, u);
    }
  }
}
