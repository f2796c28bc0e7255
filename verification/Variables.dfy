/** Replacing a variable at the head of a template context by what it was defined to be. */
module Variables {
  import opened Options
  import opened Strings
  import opened Contexts
  import opened Nodes

  datatype VariableType = Assignment | RangeKeyOrIndex | RangeValue

  datatype VariableDefinition = VariableDefinition(value: string, variableType: VariableType, scope: Area, area: Area)

  type Definitions = map<string, seq<VariableDefinition>>

  predicate Encloses(surrounding: Area, including: Area) {
    surrounding.startByte <= including.startByte && including.endByte <= surrounding.endByte
  }

  /** The first definition whose scope covers the area, even when a later one is narrower. */
  function Selected(ds: seq<VariableDefinition>, area: Area): Option<VariableDefinition> {
    if ds == [] then None
    else if Encloses(ds[0].scope, area) then Some(ds[0])
    else Selected(ds[1..], area)
  }

  /** The definition found is the first in whose scope the area begins and ends, and none is found if there is no such. */
  lemma {:induction false} SelectedExactly(ds: seq<VariableDefinition>, area: Area)
    ensures Selected(ds, area).None? <==>
            forall d | d in ds :: d.scope.startByte > area.startByte || d.scope.endByte < area.endByte
    ensures forall i | 0 <= i < |ds| && ds[i].scope.startByte <= area.startByte && area.endByte <= ds[i].scope.endByte
                       && (forall d | d in ds[..i] :: d.scope.startByte > area.startByte || d.scope.endByte < area.endByte) ::
              Selected(ds, area) == Some(ds[i])
  {
    if ds != [] {
      SelectedExactly(ds[1..], area);
      assert ds == [ds[0]] + ds[1..];
      forall i | 0 <= i < |ds| && ds[i].scope.startByte <= area.startByte && area.endByte <= ds[i].scope.endByte
                 && (forall d | d in ds[..i] :: d.scope.startByte > area.startByte || d.scope.endByte < area.endByte)
        ensures Selected(ds, area) == Some(ds[i])
      {
        if i > 0 {
          assert ds[..i] == [ds[0]] + ds[1..][..i-1] && ds[0] in ds[..i];
          assert ds[1..][i-1] == ds[i];
        }
      }
    }
  }

  method FindDefinitionForRange(ds: seq<VariableDefinition>, area: Area) returns (found: Option<VariableDefinition>)
    ensures found == Selected(ds, area)
  {
    for i := 0 to |ds|
      invariant Selected(ds, area) == Selected(ds[i..], area)
    {
      if Encloses(ds[i].scope, area) {
        return Some(ds[i]);
      }
    }
    return None;
  }

  /** A definition that is added later never takes over an area that already has one. */
  lemma {:induction false} FirstDefinitionWins(ds: seq<VariableDefinition>, d: VariableDefinition, area: Area)
    ensures Selected(ds + [d], area) == if Selected(ds, area).Some? then Selected(ds, area) else Selected([d], area)
    decreases |ds|
  {
    if ds == [] {
      assert ds + [d] == [d];
    } else {
      assert (ds + [d])[1..] == ds[1..] + [d];
      FirstDefinitionWins(ds[1..], d, area);
    }
  }

  class VariableTable {
    var definitions: Definitions

    constructor ()
      ensures definitions == map[]
    {
      definitions := map[];
    }

    method AddVariableDefinition(symbol: string, definition: VariableDefinition)
      modifies this
      ensures definitions == old(definitions)[symbol := DefinitionsOf(old(definitions), symbol) + [definition]]
    {
      var known := if symbol in definitions then definitions[symbol] else [];
      definitions := definitions[symbol := known + [definition]];
    }
  }

  function DefinitionsOf(defs: Definitions, name: string): seq<VariableDefinition> {
    if name in defs then defs[name] else []
  }

  /** The context a definition puts in the place of its variable; a range value stands for an element. */
  function PrefixOf(d: VariableDefinition): Context {
    var path := NewTemplateContext(d.value);
    if d.variableType == RangeValue && path != [] then AppendSuffix(path, "[]") else path
  }

  /** What takes the place of a variable, seen from one area of the template. */
  type Replacements = string -> Option<Context>

  function ReplacementsAt(defs: Definitions, area: Area): Replacements {
    (name: string) =>
      var d := Selected(DefinitionsOf(defs, name), area);
      if d.None? then None else Some(PrefixOf(d.value))
  }

  ghost predicate Bounded(rep: Replacements, keys: set<string>) {
    forall name | rep(name).Some? :: name in keys
  }

  /** How the code returns: with a context that no longer begins with a variable, with what follows the root `$`, or with an
      error and the context that it could not go on with. */
  datatype Outcome = Resolved(context: Context) | AtRoot(context: Context) | NotFound(context: Context)

  /** Resolution as the code does it, cut off after so many replacements. */
  function Run(rep: Replacements, t: Context, fuel: nat): Option<Outcome>
    decreases fuel
  {
    if !IsVariable(t) then Some(Resolved(t))
    else if t[0] == "$" then Some(AtRoot(Tail(t)))
    else
      var prefix := rep(t[0]);
      if prefix.None? then Some(NotFound(t))
      else if fuel == 0 then None
      else Run(rep, prefix.value + Tail(t), fuel - 1)
  }

  lemma {:induction false} MoreFuel(rep: Replacements, t: Context, fuel: nat, more: nat)
    requires Run(rep, t, fuel).Some? && fuel <= more
    ensures Run(rep, t, more) == Run(rep, t, fuel)
    decreases fuel
  {
    if IsVariable(t) && t[0] != "$" && rep(t[0]).Some? {
      MoreFuel(rep, rep(t[0]).value + Tail(t), fuel - 1, more - 1);
    }
  }

  /** Whatever a context resolves to does not begin with a variable, unless it is what follows the root. */
  lemma {:induction false} ResolvedHead(rep: Replacements, t: Context, fuel: nat)
    ensures var o := Run(rep, t, fuel); o.Some? && o.value.Resolved? ==> !IsVariable(o.value.context)
    decreases fuel
  {
    if IsVariable(t) && t[0] != "$" && rep(t[0]).Some? && fuel > 0 {
      ResolvedHead(rep, rep(t[0]).value + Tail(t), fuel - 1);
    }
  }

  // ----- resolution segment by segment -----

  /** What becomes of a context: it is used up by replacements that are empty, it is done, or it is replaced without end. */
  datatype Fate = Erased | Done(outcome: Outcome) | Endless

  function Then(o: Outcome, rest: Context): Outcome {
    o.(context := o.context + rest)
  }

  /** Resolution of a context from what becomes of its segments: the first that is not erased decides, and the others follow it.
      `seen` are the variables that are being replaced; one that turns up inside its own replacement is replaced without end. */
  function Eval(rep: Replacements, keys: set<string>, t: Context, seen: set<string>): Fate
    requires seen <= keys && Bounded(rep, keys)
    decreases keys - seen, |t|
  {
    if t == [] then Erased
    else
      match EvalSegment(rep, keys, t[0], seen)
      case Erased => Eval(rep, keys, t[1..], seen)
      case Done(o) => Done(Then(o, t[1..]))
      case Endless => Endless
  }

  function EvalSegment(rep: Replacements, keys: set<string>, segment: string, seen: set<string>): Fate
    requires seen <= keys && Bounded(rep, keys)
    decreases keys - seen, 0
  {
    if !HasPrefix(segment, "$") then Done(Resolved([segment]))
    else if segment == "$" then Done(AtRoot([]))
    else if rep(segment).None? then Done(NotFound([segment]))
    else if segment in seen then Endless
    else Eval(rep, keys, rep(segment).value, seen + {segment})
  }

  function ResolveVariables(defs: Definitions, t: Context, area: Area): Fate {
    Eval(ReplacementsAt(defs, area), defs.Keys, t, {})
  }

  function Result(f: Fate): Outcome
    requires !f.Endless?
  {
    if f.Erased? then Resolved([]) else f.outcome
  }

  /** A context followed by others. */
  function Followed(f: Fate, rest: Context, restFate: Fate): Fate {
    match f
    case Erased => restFate
    case Done(o) => Done(Then(o, rest))
    case Endless => Endless
  }

  lemma {:induction false} EvalAppend(rep: Replacements, keys: set<string>, t: Context, u: Context, seen: set<string>)
    requires seen <= keys && Bounded(rep, keys)
    ensures Eval(rep, keys, t + u, seen) == Followed(Eval(rep, keys, t, seen), u, Eval(rep, keys, u, seen))
    decreases |t|
  {
    if t == [] {
      assert t + u == u;
    } else {
      assert (t + u)[1..] == t[1..] + u;
      EvalAppend(rep, keys, t[1..], u, seen);
      var f := EvalSegment(rep, keys, t[0], seen);
      if f.Done? {
        ThenRest(f.outcome, t[1..], u);
      }
    }
  }

  /** Remembering fewer variables changes nothing but that a loop may not be noticed yet. */
  lemma {:induction false} FewerSeen(rep: Replacements, keys: set<string>, t: Context, seen: set<string>, fewer: set<string>)
    requires fewer <= seen <= keys && Bounded(rep, keys) && !Eval(rep, keys, t, seen).Endless?
    ensures Eval(rep, keys, t, fewer) == Eval(rep, keys, t, seen)
    decreases keys - seen, |t|
  {
    if t != [] {
      FewerSeenSegment(rep, keys, t[0], seen, fewer);
      if EvalSegment(rep, keys, t[0], seen).Erased? {
        FewerSeen(rep, keys, t[1..], seen, fewer);
      }
    }
  }

  lemma {:induction false} FewerSeenSegment(rep: Replacements, keys: set<string>, segment: string, seen: set<string>, fewer: set<string>)
    requires fewer <= seen <= keys && Bounded(rep, keys) && !EvalSegment(rep, keys, segment, seen).Endless?
    ensures EvalSegment(rep, keys, segment, fewer) == EvalSegment(rep, keys, segment, seen)
    decreases keys - seen, 0
  {
    if HasPrefix(segment, "$") && segment != "$" && rep(segment).Some? {
      FewerSeen(rep, keys, rep(segment).value, seen + {segment}, fewer + {segment});
    }
  }

  /** If remembering `name` makes the difference, then replacing `name` comes to an end all the same: the difference can only be
      made where `name` is replaced. */
  lemma {:induction false} OneMoreSeen(rep: Replacements, keys: set<string>, t: Context, seen: set<string>, name: string)
    requires seen <= keys && Bounded(rep, keys) && !Eval(rep, keys, t, seen).Endless?
    requires HasPrefix(name, "$") && name != "$" && rep(name).Some?
    ensures !Eval(rep, keys, t, seen + {name}).Endless? || !Eval(rep, keys, rep(name).value, seen + {name}).Endless?
    decreases keys - seen, |t|
  {
    if t != [] {
      OneMoreSeenSegment(rep, keys, t[0], seen, name);
      if !EvalSegment(rep, keys, t[0], seen + {name}).Endless? {
        FewerSeenSegment(rep, keys, t[0], seen + {name}, seen);
        if EvalSegment(rep, keys, t[0], seen).Erased? {
          OneMoreSeen(rep, keys, t[1..], seen, name);
        }
      }
    }
  }

  lemma {:induction false} OneMoreSeenSegment(rep: Replacements, keys: set<string>, segment: string, seen: set<string>, name: string)
    requires seen <= keys && Bounded(rep, keys) && !EvalSegment(rep, keys, segment, seen).Endless?
    requires HasPrefix(name, "$") && name != "$" && rep(name).Some?
    ensures !EvalSegment(rep, keys, segment, seen + {name}).Endless? || !Eval(rep, keys, rep(name).value, seen + {name}).Endless?
    decreases keys - seen, 0
  {
    if HasPrefix(segment, "$") && segment != "$" && rep(segment).Some? && segment != name {
      OneMoreSeen(rep, keys, rep(segment).value, seen + {segment}, name);
      assert seen + {segment} + {name} == seen + {name} + {segment};
      if !Eval(rep, keys, rep(name).value, seen + {segment} + {name}).Endless? {
        FewerSeen(rep, keys, rep(name).value, seen + {segment} + {name}, seen + {name});
      }
    }
  }

  /** Full substitution: a variable becomes what its replacement becomes. */
  lemma Substitutes(rep: Replacements, keys: set<string>, name: string, rest: Context)
    requires Bounded(rep, keys) && HasPrefix(name, "$") && name != "$" && rep(name).Some?
    ensures Eval(rep, keys, [name] + rest, {}) == Eval(rep, keys, rep(name).value + rest, {})
  {
    var prefix := rep(name).value;
    assert ([name] + rest)[1..] == rest;
    EvalAppend(rep, keys, prefix, rest, {});
    assert {} + {name} == {name};
    if !Eval(rep, keys, prefix, {}).Endless? {
      OneMoreSeen(rep, keys, prefix, {}, name);
      FewerSeen(rep, keys, prefix, {name}, {});
    } else if !Eval(rep, keys, prefix, {name}).Endless? {
      FewerSeen(rep, keys, prefix, {name}, {});
    }
  }

  // ----- the code computes it -----

  /** Running what stands before `rest`, with so many replacements to spare, does what its fate says. */
  predicate RunsTo(rep: Replacements, t: Context, steps: nat, f: Fate, rest: Context, fuel: nat)
    requires !f.Endless?
  {
    Run(rep, t, steps + fuel) == if f.Erased? then Run(rep, rest, fuel) else Some(Then(f.outcome, rest))
  }

  lemma {:induction false} EvalRuns(rep: Replacements, keys: set<string>, t: Context, rest: Context, seen: set<string>, fuel: nat)
    returns (steps: nat)
    requires seen <= keys && Bounded(rep, keys) && !Eval(rep, keys, t, seen).Endless?
    ensures RunsTo(rep, t + rest, steps, Eval(rep, keys, t, seen), rest, fuel)
    decreases keys - seen, |t|
  {
    if t == [] {
      assert t + rest == rest;
      steps := 0;
    } else {
      var after := t[1..] + rest;
      assert t + rest == [t[0]] + after;
      var f := EvalSegment(rep, keys, t[0], seen);
      if f.Erased? {
        var later := EvalRuns(rep, keys, t[1..], rest, seen, fuel);
        var first := SegmentRuns(rep, keys, t[0], after, seen, later + fuel);
        steps := first + later;
      } else {
        steps := SegmentRuns(rep, keys, t[0], after, seen, fuel);
        ThenRest(f.outcome, t[1..], rest);
      }
    }
  }

  lemma ThenRest(o: Outcome, t: Context, u: Context)
    ensures Then(o, t + u) == Then(Then(o, t), u)
  {
    assert o.context + (t + u) == o.context + t + u;
  }

  lemma {:induction false} SegmentRuns(rep: Replacements, keys: set<string>, segment: string, rest: Context, seen: set<string>, fuel: nat)
    returns (steps: nat)
    requires seen <= keys && Bounded(rep, keys) && !EvalSegment(rep, keys, segment, seen).Endless?
    ensures RunsTo(rep, [segment] + rest, steps, EvalSegment(rep, keys, segment, seen), rest, fuel)
    decreases keys - seen, 0
  {
    var t := [segment] + rest;
    assert Tail(t) == rest;
    if HasPrefix(segment, "$") && segment != "$" && rep(segment).Some? {
      steps := EvalRuns(rep, keys, rep(segment).value, rest, seen + {segment}, fuel);
      steps := steps + 1;
    } else {
      steps := 0;
      assert [] + rest == rest;
    }
  }

  lemma {:induction false} RunsEval(rep: Replacements, keys: set<string>, t: Context, fuel: nat)
    requires Bounded(rep, keys) && Run(rep, t, fuel).Some?
    ensures !Eval(rep, keys, t, {}).Endless?
    decreases fuel
  {
    if IsVariable(t) && t[0] != "$" && rep(t[0]).Some? {
      RunsEval(rep, keys, rep(t[0]).value + Tail(t), fuel - 1);
      Substitutes(rep, keys, t[0], Tail(t));
      assert t == [t[0]] + Tail(t);
    }
  }

  /** Head-first replacement ends exactly when no variable turns up inside its own replacement before anything else does, and
      then it gives what the segments give one by one. No assumption is made on what the definitions are. */
  lemma EndsExactly(rep: Replacements, keys: set<string>, t: Context)
    requires Bounded(rep, keys)
    ensures Eval(rep, keys, t, {}).Endless? ==> forall fuel :: Run(rep, t, fuel).None?
    ensures !Eval(rep, keys, t, {}).Endless? ==> exists fuel :: Run(rep, t, fuel) == Some(Result(Eval(rep, keys, t, {})))
  {
    if Eval(rep, keys, t, {}).Endless? {
      forall fuel ensures Run(rep, t, fuel).None? {
        if Run(rep, t, fuel).Some? {
          RunsEval(rep, keys, t, fuel);
        }
      }
    } else {
      var steps := EvalRuns(rep, keys, t, [], {}, 0);
      assert t + [] == t;
      var f := Eval(rep, keys, t, {});
      if f.Done? {
        assert f.outcome.context + [] == f.outcome.context;
      }
      assert RunsTo(rep, t, steps, f, [], 0);
      assert Run(rep, t, steps) == Some(Result(f));
    }
  }

  /** The same for a template's definitions, whatever they are. */
  lemma ResolutionEnds(defs: Definitions, t: Context, area: Area)
    ensures var rep, f := ReplacementsAt(defs, area), ResolveVariables(defs, t, area);
            if f.Endless? then forall fuel :: Run(rep, t, fuel).None? else exists fuel :: Run(rep, t, fuel) == Some(Result(f))
  {
    EndsExactly(ReplacementsAt(defs, area), defs.Keys, t);
  }

  // ----- how soon a resolution ends -----

  /** A context that begins with a variable holds no other. */
  predicate HeadOnly(t: Context) {
    IsVariable(t) ==> forall segment | segment in t[1..] :: !HasPrefix(segment, "$")
  }

  ghost predicate HeadOnlyReplacements(rep: Replacements) {
    forall name | rep(name).Some? :: HeadOnly(rep(name).value)
  }

  /** Where variables only stand at heads, a resolution that ends does so within one replacement for each variable. */
  lemma {:induction false} EndsSoon(rep: Replacements, keys: set<string>, t: Context, seen: set<string>)
    requires Bounded(rep, keys) && seen <= keys && HeadOnlyReplacements(rep) && HeadOnly(t)
    requires !Eval(rep, keys, t, seen).Endless?
    ensures Run(rep, t, |keys - seen|) == Some(Result(Eval(rep, keys, t, seen)))
    decreases keys - seen
  {
    if t != [] && IsVariable(t) && t[0] != "$" && rep(t[0]).Some? {
      var later := seen + {t[0]};
      assert t[0] in keys - seen && keys - later == (keys - seen) - {t[0]};
      var next := rep(t[0]).value + Tail(t);
      HeadReplaced(rep, keys, t, seen);
      EndsSoon(rep, keys, next, later);
    } else if t != [] {
      assert [t[0]] + t[1..] == t && [] + t[1..] == t[1..];
    }
  }

  lemma HeadReplaced(rep: Replacements, keys: set<string>, t: Context, seen: set<string>)
    requires Bounded(rep, keys) && seen <= keys && HeadOnlyReplacements(rep) && HeadOnly(t)
    requires IsVariable(t) && t[0] != "$" && rep(t[0]).Some? && t[0] !in seen
    ensures var next := rep(t[0]).value + Tail(t);
            HeadOnly(next) && Eval(rep, keys, next, seen + {t[0]}) == Eval(rep, keys, t, seen)
  {
    var value, later := rep(t[0]).value, seen + {t[0]};
    EvalAppend(rep, keys, value, Tail(t), later);
    assert Tail(t) != [] ==> Tail(t)[0] in t[1..];
    assert Eval(rep, keys, Tail(t), later) == Eval(rep, keys, Tail(t), seen);
    assert EvalSegment(rep, keys, t[0], seen) == Eval(rep, keys, value, later);
    if value != [] {
      assert (value + Tail(t))[1..] == value[1..] + Tail(t);
    } else {
      assert value + Tail(t) == Tail(t);
    }
  }

  // ----- why a resolution does not end -----

  /** The first segment that is not erased. */
  function Live(rep: Replacements, keys: set<string>, t: Context): Option<string>
    requires Bounded(rep, keys)
  {
    if t == [] then None
    else if EvalSegment(rep, keys, t[0], {}).Erased? then Live(rep, keys, t[1..])
    else Some(t[0])
  }

  /** Every name of the set is a variable whose replacement comes down to a name of the set. */
  ghost predicate Closed(rep: Replacements, keys: set<string>, names: set<string>)
    requires Bounded(rep, keys)
  {
    forall name | name in names :: HasPrefix(name, "$") && name != "$" && rep(name).Some? &&
                                   Live(rep, keys, rep(name).value).Some? && Live(rep, keys, rep(name).value).value in names
  }

  lemma {:induction false} LiveDecides(rep: Replacements, keys: set<string>, t: Context)
    requires Bounded(rep, keys)
    ensures Eval(rep, keys, t, {}).Endless? <==>
            Live(rep, keys, t).Some? && EvalSegment(rep, keys, Live(rep, keys, t).value, {}).Endless?
  {
    if t != [] && EvalSegment(rep, keys, t[0], {}).Erased? {
      LiveDecides(rep, keys, t[1..]);
    }
  }

  lemma {:induction false} ClosedIsEndless(rep: Replacements, keys: set<string>, names: set<string>, name: string, seen: set<string>)
    requires Bounded(rep, keys) && Closed(rep, keys, names) && name in names && seen <= keys
    ensures EvalSegment(rep, keys, name, seen).Endless?
    decreases keys - seen, 1, 0
  {
    if name !in seen {
      LiveIsEndless(rep, keys, names, rep(name).value, seen + {name});
    }
  }

  lemma {:induction false} LiveIsEndless(rep: Replacements, keys: set<string>, names: set<string>, t: Context, seen: set<string>)
    requires Bounded(rep, keys) && Closed(rep, keys, names) && seen <= keys
    requires Live(rep, keys, t).Some? && Live(rep, keys, t).value in names
    ensures Eval(rep, keys, t, seen).Endless?
    decreases keys - seen, 2, |t|
  {
    if EvalSegment(rep, keys, t[0], {}).Erased? {
      LiveIsEndless(rep, keys, names, t[1..], seen);
      if !EvalSegment(rep, keys, t[0], seen).Endless? {
        FewerSeenSegment(rep, keys, t[0], seen, {});
      }
    } else {
      ClosedIsEndless(rep, keys, names, t[0], seen);
    }
  }

  /** Resolution does not end exactly when what the context comes down to is in a set of variables that only come down to each
      other. */
  lemma EndlessExactly(rep: Replacements, keys: set<string>, t: Context)
    requires Bounded(rep, keys)
    ensures Eval(rep, keys, t, {}).Endless? <==>
            exists names :: Closed(rep, keys, names) && Live(rep, keys, t).Some? && Live(rep, keys, t).value in names
  {
    LiveDecides(rep, keys, t);
    if Eval(rep, keys, t, {}).Endless? {
      var names := set name | name in keys && EvalSegment(rep, keys, name, {}).Endless?;
      forall name | name in names
        ensures HasPrefix(name, "$") && name != "$" && rep(name).Some? &&
                Live(rep, keys, rep(name).value).Some? && Live(rep, keys, rep(name).value).value in names
      {
        EndlessLeadsOn(rep, keys, name);
      }
      assert Closed(rep, keys, names);
      EndlessIsKey(rep, keys, Live(rep, keys, t).value);
    } else {
      forall names | Closed(rep, keys, names) && Live(rep, keys, t).Some? && Live(rep, keys, t).value in names ensures false {
        ClosedIsEndless(rep, keys, names, Live(rep, keys, t).value, {});
      }
    }
  }

  lemma EndlessIsKey(rep: Replacements, keys: set<string>, name: string)
    requires Bounded(rep, keys) && EvalSegment(rep, keys, name, {}).Endless?
    ensures name in keys && HasPrefix(name, "$") && name != "$" && rep(name).Some?
  {
  }

  lemma EndlessLeadsOn(rep: Replacements, keys: set<string>, name: string)
    requires Bounded(rep, keys) && EvalSegment(rep, keys, name, {}).Endless?
    ensures HasPrefix(name, "$") && name != "$" && rep(name).Some?
    ensures var next := Live(rep, keys, rep(name).value);
            next.Some? && next.value in keys && EvalSegment(rep, keys, next.value, {}).Endless?
  {
    Substitutes(rep, keys, name, []);
    var prefix := rep(name).value;
    assert prefix + [] == prefix;
    LiveDecides(rep, keys, prefix);
    EndlessIsKey(rep, keys, Live(rep, keys, prefix).value);
  }

  // ----- definitions that refer to lower ranks -----

  /** Every variable in a replacement has a lower rank than the variable replaced. */
  ghost predicate Ranked(rep: Replacements, rank: string -> nat) {
    forall name, segment | rep(name).Some? && segment in rep(name).value && HasPrefix(segment, "$") && segment != "$" ::
      rank(segment) < rank(name)
  }

  ghost predicate RanksBelow(t: Context, rank: string -> nat, bound: nat) {
    forall segment | segment in t && HasPrefix(segment, "$") && segment != "$" :: rank(segment) < bound
  }

  lemma {:induction false} RunThenRun(rep: Replacements, t: Context, u: Context, fuel: nat, more: nat)
    requires Run(rep, t, fuel).Some? && Run(rep, u, more).Some?
    ensures Run(rep, t + u, fuel + more).Some?
    decreases fuel
  {
    if t == [] {
      assert t + u == u;
      MoreFuel(rep, u, more, fuel + more);
    } else if IsVariable(t) && t[0] != "$" && rep(t[0]).Some? {
      var next := rep(t[0]).value + Tail(t);
      RunStep(rep, t, u, fuel, more);
      RunThenRun(rep, next, u, fuel - 1, more);
    }
  }

  lemma RunStep(rep: Replacements, t: Context, u: Context, fuel: nat, more: nat)
    requires IsVariable(t) && t[0] != "$" && rep(t[0]).Some? && Run(rep, t, fuel).Some?
    ensures var next := rep(t[0]).value + Tail(t);
            && fuel > 0 && Run(rep, t, fuel) == Run(rep, next, fuel - 1)
            && Run(rep, t + u, fuel + more) == Run(rep, next + u, fuel - 1 + more)
  {
    var prefix := rep(t[0]).value;
    assert Tail(t + u) == Tail(t) + u;
    assert prefix + Tail(t + u) == prefix + Tail(t) + u;
  }

  /** Ranked definitions resolve every context, whatever variables it holds. */
  lemma {:induction false} RankedEnds(rep: Replacements, t: Context, rank: string -> nat, bound: nat) returns (fuel: nat)
    requires Ranked(rep, rank) && RanksBelow(t, rank, bound)
    ensures Run(rep, t, fuel).Some?
    decreases bound, |t|
  {
    if !IsVariable(t) || t[0] == "$" || rep(t[0]).None? {
      fuel := 0;
    } else {
      var prefix := rep(t[0]).value;
      var first := RankedEnds(rep, prefix, rank, rank(t[0]));
      var rest := RankedEnds(rep, Tail(t), rank, bound);
      RunThenRun(rep, prefix, Tail(t), first, rest);
      fuel := first + rest + 1;
    }
  }

  // ----- range values -----

  function Element(f: Fate): Fate {
    if f.Done? then Done(f.outcome.(context := AppendSuffix(f.outcome.context, "[]"))) else f
  }

  /** Appending to the last segment of a context appends to what it resolves to; only where that segment decides, being all that
      is not erased, and is a variable, it is another variable that is looked up. */
  lemma SuffixedResolves(rep: Replacements, keys: set<string>, init: Context, last: string)
    requires Bounded(rep, keys)
    ensures Eval(rep, keys, init + [last + "[]"], {}) ==
            if Eval(rep, keys, init, {}).Erased? && HasPrefix(last, "$") then Eval(rep, keys, [last + "[]"], {})
            else Element(Eval(rep, keys, init + [last], {}))
  {
    var suffixed := last + "[]";
    assert HasPrefix(suffixed, "$") <==> HasPrefix(last, "$") by {
      assert suffixed[0] == if last == "" then '[' else last[0];
    }
    assert suffixed[|suffixed|-1] == ']' && suffixed != "$";
    EvalAppend(rep, keys, init, [suffixed], {});
    EvalAppend(rep, keys, init, [last], {});
    OneSegment(rep, keys, suffixed);
    OneSegment(rep, keys, last);
    var f := Eval(rep, keys, init, {});
    if f.Done? {
      var c := f.outcome.context;
      assert (c + [last])[..|c|] == c;
    } else if f.Erased? && !HasPrefix(last, "$") {
      assert [last][..0] == [];
      assert AppendSuffix([last], "[]") == [suffixed];
    }
  }

  lemma OneSegment(rep: Replacements, keys: set<string>, segment: string)
    requires Bounded(rep, keys)
    ensures Eval(rep, keys, [segment], {}) == EvalSegment(rep, keys, segment, {})
  {
    var f := EvalSegment(rep, keys, segment, {});
    assert [segment][1..] == [];
    if f.Done? {
      assert f.outcome.context + [] == f.outcome.context;
    }
  }

  /** The value variable of a range is an element of what the ranged path resolves to, exactly unless the path comes down to a
      variable as its last segment. Such a variable is looked up under its name with `[]`, and not found if nothing is defined
      under that name. */
  lemma RangeValueResolves(defs: Definitions, name: string, d: VariableDefinition, init: Context, last: string, area: Area)
    requires HasPrefix(name, "$") && name != "$"
    requires Selected(DefinitionsOf(defs, name), area) == Some(d) && d.variableType == RangeValue
    requires NewTemplateContext(d.value) == init + [last]
    ensures var ranged, value := ResolveVariables(defs, init + [last], area), ResolveVariables(defs, [name], area);
            var bare := ResolveVariables(defs, init, area).Erased? && HasPrefix(last, "$");
            && value == (if bare then ResolveVariables(defs, [last + "[]"], area) else Element(ranged))
            && (bare && last + "[]" !in defs ==> value == Done(NotFound([last + "[]"])))
  {
    var rep := ReplacementsAt(defs, area);
    assert AppendSuffix(init + [last], "[]") == init + [last + "[]"] by {
      assert (init + [last])[..|init|] == init;
    }
    assert rep(name) == Some(init + [last + "[]"]);
    Substitutes(rep, defs.Keys, name, []);
    assert [name] + [] == [name] && init + [last + "[]"] + [] == init + [last + "[]"];
    SuffixedResolves(rep, defs.Keys, init, last);
    assert NotFound([last + "[]"]).context + [] == [last + "[]"];
  }

  // ----- templates for which it fails -----

  const ANYWHERE := Area(0, 100)

  lemma OneDefinition(name: string, d: VariableDefinition, path: Context)
    requires d.scope == ANYWHERE && path != [] && (forall p | p in path :: '.' !in p) && path[0] != ""
    requires d.value == Join(path, '.') && d.value != "."
    ensures ReplacementsAt(map[name := [d]], ANYWHERE)(name) ==
            Some(if d.variableType == RangeValue then AppendSuffix(path, "[]") else path)
  {
    SplitJoin(path, '.');
  }

  /** `{{ $x := $x.a }}`: a variable defined through itself never resolves. */
  lemma SelfReferenceLoops(defs: Definitions)
    requires defs == map["$x" := [VariableDefinition("$x.a", Assignment, ANYWHERE, ANYWHERE)]]
    ensures forall fuel :: Run(ReplacementsAt(defs, ANYWHERE), ["$x"], fuel).None?
  {
    var rep, seen := ReplacementsAt(defs, ANYWHERE), {"$x"};
    assert ["$x", "a"][1..] == ["a"] && {} + seen == seen;
    OneDefinition("$x", VariableDefinition("$x.a", Assignment, ANYWHERE, ANYWHERE), ["$x", "a"]);
    assert rep("$x") == Some(["$x", "a"]);
    assert EvalSegment(rep, defs.Keys, "$x", seen).Endless?;
    assert Eval(rep, defs.Keys, ["$x", "a"], seen).Endless?;
    OneSegment(rep, defs.Keys, "$x");
    EndsExactly(rep, defs.Keys, ["$x"]);
  }

  lemma ListResolves(rep: Replacements, keys: set<string>)
    requires Bounded(rep, keys) && rep("$list") == Some(["Values"])
    ensures Eval(rep, keys, ["$list"], {}) == Done(Resolved(["Values"]))
  {
    var seen := {"$list"};
    assert {} + seen == seen && ["Values"][1..] == [];
    assert "Values"[0] != '$';
    assert EvalSegment(rep, keys, "Values", seen) == Done(Resolved(["Values"]));
    assert ["Values"] + [] == ["Values"];
    OneSegment(rep, keys, "$list");
  }

  lemma SplitDotted(name: string)
    requires '.' !in name
    ensures Split("." + name, '.') == ["", name]
  {
    assert ("." + name)[1..] == name;
    SplitOne(name, '.');
  }

  const LIST := VariableDefinition(".Values", Assignment, ANYWHERE, ANYWHERE)
  const VALUE := VariableDefinition("$list", RangeValue, ANYWHERE, ANYWHERE)

  lemma ListPath()
    ensures NewTemplateContext(LIST.value) == ["Values"]
  {
    SplitDotted("Values");
    assert "." + "Values" == ".Values" && ["", "Values"][1..] == ["Values"];
  }

  lemma ValuePath()
    ensures NewTemplateContext(VALUE.value) == [] + ["$list"]
  {
    SplitOne("$list", '.');
    assert [] + ["$list"] == ["$list"];
  }

  lemma BareValue(defs: Definitions)
    requires "$v" in defs && defs["$v"] == [VALUE] && "$list" + "[]" !in defs
    ensures ResolveVariables(defs, ["$v"], ANYWHERE) == Done(NotFound(["$list" + "[]"]))
  {
    ValuePath();
    assert "$list"[..1] == "$" && "$v"[..1] == "$";
    assert ResolveVariables(defs, [], ANYWHERE).Erased?;
    RangeValueResolves(defs, "$v", VALUE, [], "$list", ANYWHERE);
  }

  /** `{{ range $i, $v := $list }}`: the value variable is not found, although the list is. */
  lemma BareRangeNotFound(defs: Definitions)
    requires "$list" in defs && defs["$list"] == [LIST] && "$v" in defs && defs["$v"] == [VALUE] && "$list" + "[]" !in defs
    ensures ResolveVariables(defs, ["$v"], ANYWHERE) == Done(NotFound(["$list" + "[]"]))
    ensures ResolveVariables(defs, ["$list"], ANYWHERE) == Done(Resolved(["Values"]))
  {
    BareValue(defs);
    ListPath();
    ListResolves(ReplacementsAt(defs, ANYWHERE), defs.Keys);
  }
}
