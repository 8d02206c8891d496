/**
 * Method overload resolution (Binding/OverloadResolution/OverloadResolution.cs):
 * the arity filter, the mapping of named arguments onto parameters, the
 * score of the implicit casts an overload needs, the running choice of the
 * lowest-scoring overloads, the tie-breaks between overloads that score the
 * same, and the restoring of the diagnostics afterwards.
 *
 * Binding an argument to a parameter type (`BindCast`) and the type
 * hierarchy queries are not part of this model: their answers come in as
 * data (a `CastKind` per argument, an inheritance flag and depth per
 * candidate).
 */
module OverloadResolution {
  import opened Wrappers
  import opened Strings
  import BinderChecks

  /** `int.MaxValue`, the starting point of every running minimum. */
  const IntMaxValue: int := 0x7fff_ffff

  /** The diagnostics pushed here; a candidate's own binding diagnostics are `CandidateDiagnostic`. */
  datatype Diagnostic =
    | ParameterAlreadySpecified(location: nat, name: string)
    | NoSuchParameter(location: nat, methodName: string, parameterName: string, hasOverloads: bool)
    | NoMethodOverload(location: nat, name: string)
    | NoConstructorOverload(location: nat, typeName: string)
    | AmbiguousMethodOverload(location: nat, candidates: seq<string>)
    | CandidateDiagnostic(text: string)

  // ---------------------------------------------------------------------------
  // Arity

  datatype Parameter = Parameter(name: string, hasDefault: bool)

  /** The number of parameters with a default value. */
  function DefaultCount(ps: seq<Parameter>): (r: nat)
    ensures r <= |ps|
  {
    if |ps| == 0 then 0 else DefaultCount(ps[..|ps| - 1]) + (if ps[|ps| - 1].hasDefault then 1 else 0)
  }

  /** A `$`-prefixed parameter, which a local function receives from its enclosing scope. */
  predicate IsCaptured(p: Parameter)
  {
    StartsWith(p.name, "$")
  }

  /** A local function, whose lowered name contains `>g__`. */
  predicate IsInner(methodName: string)
  {
    Contains(methodName, ">g__")
  }

  /** The number of captured parameters. */
  function CapturedCount(ps: seq<Parameter>): (r: nat)
    ensures r <= |ps|
  {
    if |ps| == 0 then 0
    else CapturedCount(ps[..|ps| - 1]) + (if IsCaptured(ps[|ps| - 1]) then 1 else 0)
  }

  /**
   * Whether a candidate is skipped for its argument count: fewer arguments
   * than parameters without defaults, or more arguments than parameters,
   * unless it is a local function whose captured parameters make up the
   * difference exactly.
   */
  predicate ArityRejected(argumentCount: nat, ps: seq<Parameter>, methodName: string)
  {
    (argumentCount < |ps| - DefaultCount(ps) || argumentCount > |ps|) &&
    (!IsInner(methodName) || argumentCount + CapturedCount(ps) != |ps|)
  }

  /**
   * A candidate that passes the arity check never has more arguments than
   * parameters, and one that is not a local function has at least as many
   * as it has parameters without defaults.
   */
  lemma ArityAccepted(argumentCount: nat, ps: seq<Parameter>, methodName: string)
    requires !ArityRejected(argumentCount, ps, methodName)
    ensures argumentCount <= |ps|
    ensures !IsInner(methodName) ==> |ps| - DefaultCount(ps) <= argumentCount <= |ps|
  {
  }

  // ---------------------------------------------------------------------------
  // Argument rearrangement

  /** The index of the first parameter with this name. */
  function FirstIndexOf(ps: seq<Parameter>, name: string): (r: Option<nat>)
    ensures r.Some? ==> r.value < |ps| && ps[r.value].name == name && forall k :: 0 <= k < r.value ==> ps[k].name != name
    ensures r.None? ==> forall k :: 0 <= k < |ps| ==> ps[k].name != name
  {
    if |ps| == 0 then None
    else if ps[0].name == name then Some(0)
    else
      var rest := FirstIndexOf(ps[1..], name);
      if rest.Some? then Some(rest.value + 1) else None
  }

  /** The call being resolved against one candidate: the argument names (`None` for a positional argument), their locations, and the candidate's parameters. */
  datatype Call = Call(names: seq<Option<string>>, locations: seq<nat>, ps: seq<Parameter>, methodName: string, overloadCount: nat)

  /** The arity check has already ensured that there are no more arguments than parameters. */
  predicate Fits(c: Call)
  {
    |c.names| == |c.locations| <= |c.ps|
  }

  /**
   * The state of `CalculateArgumentRearrangements`: `canContinue`, whether
   * the loop has broken out, the map from parameter index to argument
   * index, and the parameter names already given an argument.
   */
  datatype RearrangeState = RearrangeState(ok: bool, stopped: bool, rearranged: map<int, int>, seen: set<string>, diagnostics: seq<Diagnostic>)

  /**
   * One iteration of the loop, on argument `i`. A positional argument goes
   * to parameter `i`. A named one goes to the first parameter of that name;
   * a name given twice is reported and ends the loop; an unknown name is
   * reported and clears `canContinue`, after which the loop still runs over
   * positional arguments and breaks at the next named one (reporting it too
   * if it repeats a name).
   */
  function RearrangeStep(c: Call, i: nat, s: RearrangeState): (r: RearrangeState)
    requires Fits(c) && i < |c.names|
  {
    match c.names[i]
    case None => s.(rearranged := s.rearranged[i := i], seen := s.seen + {c.ps[i].name})
    case Some(name) =>
      match FirstIndexOf(c.ps, name)
      case Some(j) =>
        if name in s.seen then s.(ok := false, stopped := true, diagnostics := s.diagnostics + [ParameterAlreadySpecified(c.locations[i], name)])
        else if !s.ok then s.(stopped := true, seen := s.seen + {name})
        else s.(rearranged := s.rearranged[j := i], seen := s.seen + {name})
      case None =>
        if !s.ok then s.(stopped := true)
        else s.(ok := false, diagnostics := s.diagnostics + [NoSuchParameter(c.locations[i], c.methodName, name, c.overloadCount > 1)])
  }

  /** The state after the first `n` arguments; nothing changes once the loop has broken out. */
  function RearrangeUpTo(c: Call, n: nat): (r: RearrangeState)
    requires Fits(c) && n <= |c.names|
  {
    if n == 0 then RearrangeState(true, false, map[], {}, [])
    else
      var s := RearrangeUpTo(c, n - 1);
      if s.stopped then s else RearrangeStep(c, n - 1, s)
  }

  /** The parameter names claimed by the arguments before `i`: positional ones by position, named ones that exist by name. */
  function Claimed(c: Call, i: nat): set<string>
    requires Fits(c) && i <= |c.names|
  {
    if i == 0 then {}
    else
      Claimed(c, i - 1) +
      match c.names[i - 1]
      case None => {c.ps[i - 1].name}
      case Some(name) => if FirstIndexOf(c.ps, name).Some? then {name} else {}
  }

  /** Argument `i` makes the rearrangement fail: it names no parameter, or a parameter already claimed. */
  predicate RearrangeFails(c: Call, i: nat)
    requires Fits(c) && i < |c.names|
  {
    c.names[i].Some? && (FirstIndexOf(c.ps, c.names[i].value).None? || c.names[i].value in Claimed(c, i))
  }

  /** What the loop keeps while it can go on: every mapped parameter is claimed, and positional arguments sit at their own index. */
  predicate RearrangeInvariant(c: Call, n: nat, s: RearrangeState)
    requires Fits(c) && n <= |c.names|
  {
    s.seen == Claimed(c, n) && !s.stopped && s.diagnostics == [] &&
    (forall k :: k in s.rearranged ==> 0 <= k < |c.ps| && c.ps[k].name in s.seen && 0 <= s.rearranged[k] < n) &&
    (forall i :: 0 <= i < n && c.names[i].None? ==> i in s.rearranged && s.rearranged[i] == i)
  }

  /** From a state that can go on, one step fails exactly on a failing argument, and claims what `Claimed` says. */
  lemma RearrangeStepOk(c: Call, i: nat, s: RearrangeState)
    requires Fits(c) && i < |c.names|
    requires s.ok && !s.stopped && s.seen == Claimed(c, i)
    ensures var r := RearrangeStep(c, i, s);
      (r.ok <==> !RearrangeFails(c, i)) && (r.ok ==> r.seen == Claimed(c, i + 1) && !r.stopped && r.diagnostics == s.diagnostics)
  {
  }

  /** A step that goes on keeps the invariant. */
  lemma RearrangeStepKeeps(c: Call, i: nat, s: RearrangeState)
    requires Fits(c) && i < |c.names|
    requires s.ok && RearrangeInvariant(c, i, s)
    requires RearrangeStep(c, i, s).ok
    ensures RearrangeInvariant(c, i + 1, RearrangeStep(c, i, s))
  {
    RearrangeStepOk(c, i, s);
    var r := RearrangeStep(c, i, s);
    forall k | k in r.rearranged
      ensures 0 <= k < |c.ps| && c.ps[k].name in r.seen && 0 <= r.rearranged[k] < i + 1
    {
    }
    forall k | 0 <= k < i + 1 && c.names[k].None?
      ensures k in r.rearranged && r.rearranged[k] == k
    {
      if k < i && c.names[i].Some? {
        var j := FirstIndexOf(c.ps, c.names[i].value).value;
        assert c.ps[j].name !in s.seen;
        assert j != k;
      }
    }
  }

  /**
   * `CalculateArgumentRearrangements` returns true exactly when no argument
   * names an unknown or already claimed parameter; it then reports nothing,
   * maps every positional argument to its own parameter and every mapped
   * parameter to an earlier argument.
   */
  lemma {:induction false} RearrangeResult(c: Call, n: nat)
    requires Fits(c) && n <= |c.names|
    ensures var s := RearrangeUpTo(c, n);
      (s.ok <==> forall i :: 0 <= i < n ==> !RearrangeFails(c, i)) &&
      (s.ok ==> RearrangeInvariant(c, n, s))
  {
    if n > 0 {
      RearrangeResult(c, n - 1);
      var s := RearrangeUpTo(c, n - 1);
      if s.ok {
        RearrangeStepOk(c, n - 1, s);
        if RearrangeStep(c, n - 1, s).ok {
          RearrangeStepKeeps(c, n - 1, s);
        } else {
          assert RearrangeFails(c, n - 1);
        }
      } else {
        RearrangeFailureSticks(c, n - 1);
        var i :| 0 <= i < n - 1 && RearrangeFails(c, i);
        assert !RearrangeUpTo(c, n).ok;
      }
    }
  }

  /** Once `canContinue` is false it stays false; the loop breaks only after it is; and at most two diagnostics are reported. */
  lemma {:induction false} RearrangeFailureSticks(c: Call, n: nat)
    requires Fits(c) && n <= |c.names|
    ensures var s := RearrangeUpTo(c, n);
      (s.stopped ==> !s.ok) && |s.diagnostics| <= 2 && (s.ok ==> s.diagnostics == []) &&
      (n < |c.names| && !s.ok ==> !RearrangeUpTo(c, n + 1).ok)
  {
    if n > 0 {
      RearrangeFailureSticks(c, n - 1);
      var s := RearrangeUpTo(c, n - 1);
      if !s.ok && !s.stopped {
        assert |s.diagnostics| == 1 by {
          RearrangeOneDiagnosticWhileRunning(c, n - 1);
        }
      }
    }
  }

  /** Before the loop breaks, a cleared `canContinue` has been reported exactly once. */
  lemma {:induction false} RearrangeOneDiagnosticWhileRunning(c: Call, n: nat)
    requires Fits(c) && n <= |c.names|
    ensures var s := RearrangeUpTo(c, n);
      !s.stopped ==> |s.diagnostics| == (if s.ok then 0 else 1)
  {
    if n > 0 {
      RearrangeOneDiagnosticWhileRunning(c, n - 1);
    }
  }

  /** Once the loop has broken out, later arguments change nothing. */
  lemma {:induction false} RearrangeStopped(c: Call, m: nat, n: nat)
    requires Fits(c) && m <= n <= |c.names|
    requires RearrangeUpTo(c, m).stopped
    ensures RearrangeUpTo(c, n) == RearrangeUpTo(c, m)
    decreases n - m
  {
    if m < n {
      RearrangeStopped(c, m, n - 1);
    }
  }

  /** `CalculateArgumentRearrangements`: the loop over the arguments, with its early `break`; `diagnostics` are appended to the binder's. */
  method CalculateArgumentRearrangements(c: Call, diagnostics: seq<Diagnostic>)
    returns (canContinue: bool, rearranged: map<int, int>, seen: set<string>, newDiagnostics: seq<Diagnostic>)
    requires Fits(c)
    ensures var s := RearrangeUpTo(c, |c.names|);
      canContinue == s.ok && rearranged == s.rearranged && seen == s.seen && newDiagnostics == diagnostics + s.diagnostics
  {
    rearranged := map[];
    seen := {};
    canContinue := true;
    newDiagnostics := diagnostics;
    var i := 0;
    while i < |c.names|
      invariant 0 <= i <= |c.names|
      invariant var s := RearrangeUpTo(c, i);
        !s.stopped && canContinue == s.ok && rearranged == s.rearranged && seen == s.seen && newDiagnostics == diagnostics + s.diagnostics
    {
      var argumentName := c.names[i];
      if argumentName.None? {
        seen := seen + {c.ps[i].name};
        rearranged := rearranged[i := i];
        i := i + 1;
        continue;
      }
      var destination: Option<nat> := None;
      var j := 0;
      while j < |c.ps|
        invariant 0 <= j <= |c.ps|
        invariant forall k :: 0 <= k < j ==> c.ps[k].name != argumentName.value
      {
        if c.ps[j].name == argumentName.value {
          if argumentName.value in seen {
            newDiagnostics := newDiagnostics + [ParameterAlreadySpecified(c.locations[i], argumentName.value)];
            canContinue := false;
          } else {
            seen := seen + {argumentName.value};
            destination := Some(j);
          }
          break;
        }
        j := j + 1;
      }
      if !canContinue {
        RearrangeStopped(c, i + 1, |c.names|);
        return;
      }
      if destination.None? {
        newDiagnostics := newDiagnostics + [NoSuchParameter(c.locations[i], c.methodName, argumentName.value, c.overloadCount > 1)];
        canContinue := false;
      } else {
        rearranged := rearranged[destination.value := i];
      }
      i := i + 1;
    }
  }

  // ---------------------------------------------------------------------------
  // Default values

  /** The loop after the rearrangement: each parameter not yet seen that has a default value gets that value appended as a new argument. */
  datatype DefaultsState = DefaultsState(rearranged: map<int, int>, seen: set<string>, count: nat)

  /** One iteration, on parameter `i`; the name is marked seen even when the parameter has no default. */
  function DefaultsStep(ps: seq<Parameter>, i: nat, s: DefaultsState): (r: DefaultsState)
    requires i < |ps|
  {
    if IsCaptured(ps[i]) || ps[i].name in s.seen then s
    else if ps[i].hasDefault then DefaultsState(s.rearranged[i := s.count], s.seen + {ps[i].name}, s.count + 1)
    else s.(seen := s.seen + {ps[i].name})
  }

  function DefaultsUpTo(ps: seq<Parameter>, n: nat, s: DefaultsState): (r: DefaultsState)
    requires n <= |ps|
  {
    if n == 0 then s else DefaultsStep(ps, n - 1, DefaultsUpTo(ps, n - 1, s))
  }

  /** The names of the uncaptured parameters before `n`. */
  function UncapturedNames(ps: seq<Parameter>, n: nat): (r: set<string>)
    requires n <= |ps|
    ensures forall i :: 0 <= i < n && !IsCaptured(ps[i]) ==> ps[i].name in r
  {
    if n == 0 then {} else UncapturedNames(ps, n - 1) + (if IsCaptured(ps[n - 1]) then {} else {ps[n - 1].name})
  }

  /**
   * Filling in defaults keeps every existing entry (and its value, for a
   * parameter whose name was already claimed), marks every uncaptured name
   * seen, maps each uncaptured parameter with a default whose name nothing
   * claimed before it, and maps nothing else: each new entry is a
   * parameter with a default pointing at a newly appended argument.
   */
  lemma {:induction false} DefaultsFill(ps: seq<Parameter>, n: nat, s: DefaultsState)
    requires n <= |ps|
    ensures var r := DefaultsUpTo(ps, n, s);
      s.count <= r.count && s.seen <= r.seen &&
      (forall k :: k in s.rearranged ==> k in r.rearranged) &&
      (forall k :: k in s.rearranged && 0 <= k < |ps| && ps[k].name in s.seen ==> r.rearranged[k] == s.rearranged[k]) &&
      r.seen == s.seen + UncapturedNames(ps, n) &&
      (forall i :: 0 <= i < n && !IsCaptured(ps[i]) && ps[i].hasDefault && ps[i].name !in s.seen + UncapturedNames(ps, i) ==>
        i in r.rearranged) &&
      (forall k :: k in r.rearranged && k !in s.rearranged ==> 0 <= k < n && ps[k].hasDefault && s.count <= r.rearranged[k] < r.count)
  {
    DefaultsKeep(ps, n, s);
    DefaultsMapDefaults(ps, n, s);
    DefaultsNewEntries(ps, n, s);
  }

  /** The counter and the seen names only grow, existing entries stay, and every uncaptured name is marked seen. */
  lemma {:induction false} DefaultsKeep(ps: seq<Parameter>, n: nat, s: DefaultsState)
    requires n <= |ps|
    ensures var r := DefaultsUpTo(ps, n, s);
      s.count <= r.count && s.seen <= r.seen &&
      (forall k :: k in s.rearranged ==> k in r.rearranged) &&
      (forall k :: k in s.rearranged && 0 <= k < |ps| && ps[k].name in s.seen ==> r.rearranged[k] == s.rearranged[k]) &&
      r.seen == s.seen + UncapturedNames(ps, n)
  {
    if n > 0 {
      DefaultsKeep(ps, n - 1, s);
      var before := DefaultsUpTo(ps, n - 1, s);
      var r := DefaultsStep(ps, n - 1, before);
      assert r == DefaultsUpTo(ps, n, s);
      forall k | k in s.rearranged && 0 <= k < |ps| && ps[k].name in s.seen
        ensures r.rearranged[k] == s.rearranged[k]
      {
        assert ps[k].name in before.seen;
      }
    }
  }

  /** The names marked seen are the starting ones and every uncaptured name. */
  lemma {:induction false} DefaultsSeen(ps: seq<Parameter>, n: nat, s: DefaultsState)
    requires n <= |ps|
    ensures DefaultsUpTo(ps, n, s).seen == s.seen + UncapturedNames(ps, n)
  {
    if n > 0 {
      DefaultsSeen(ps, n - 1, s);
    }
  }

  /** Each uncaptured parameter with a default whose name nothing claimed before it gets an entry. */
  lemma {:induction false} DefaultsMapDefaults(ps: seq<Parameter>, n: nat, s: DefaultsState)
    requires n <= |ps|
    ensures var r := DefaultsUpTo(ps, n, s);
      forall i :: 0 <= i < n && !IsCaptured(ps[i]) && ps[i].hasDefault && ps[i].name !in s.seen + UncapturedNames(ps, i) ==>
        i in r.rearranged
  {
    if n > 0 {
      DefaultsMapDefaults(ps, n - 1, s);
      DefaultsSeen(ps, n - 1, s);
      var before := DefaultsUpTo(ps, n - 1, s);
      var r := DefaultsStep(ps, n - 1, before);
      assert r == DefaultsUpTo(ps, n, s);
      assert before.rearranged.Keys <= r.rearranged.Keys;
      var last := ps[n - 1];
      if !IsCaptured(last) && last.hasDefault && last.name !in s.seen + UncapturedNames(ps, n - 1) {
        assert last.name !in before.seen;
        assert n - 1 in r.rearranged;
      }
    }
  }

  /** Every new entry is a parameter with a default, pointing at a newly appended argument. */
  lemma {:induction false} DefaultsNewEntries(ps: seq<Parameter>, n: nat, s: DefaultsState)
    requires n <= |ps|
    ensures var r := DefaultsUpTo(ps, n, s);
      forall k :: k in r.rearranged && k !in s.rearranged ==> 0 <= k < n && ps[k].hasDefault && s.count <= r.rearranged[k] < r.count
  {
    if n > 0 {
      DefaultsNewEntries(ps, n - 1, s);
      DefaultsKeep(ps, n - 1, s);
      var before := DefaultsUpTo(ps, n - 1, s);
      var r := DefaultsStep(ps, n - 1, before);
      assert r == DefaultsUpTo(ps, n, s);
      forall k | k in r.rearranged && k !in s.rearranged
        ensures 0 <= k < n && ps[k].hasDefault && s.count <= r.rearranged[k] < r.count
      {
        if k != n - 1 || k in before.rearranged {
          assert k in before.rearranged;
        }
      }
    }
  }

  /** The default-value loop of `MethodOverloadResolution`. */
  method AppendDefaults(ps: seq<Parameter>, rearranged: map<int, int>, seen: set<string>, count: nat)
    returns (newRearranged: map<int, int>, newSeen: set<string>, newCount: nat)
    ensures DefaultsState(newRearranged, newSeen, newCount) == DefaultsUpTo(ps, |ps|, DefaultsState(rearranged, seen, count))
  {
    newRearranged, newSeen, newCount := rearranged, seen, count;
    for i := 0 to |ps|
      invariant DefaultsState(newRearranged, newSeen, newCount) == DefaultsUpTo(ps, i, DefaultsState(rearranged, seen, count))
    {
      var parameter := ps[i];
      if !IsCaptured(parameter) && parameter.name !in newSeen {
        newSeen := newSeen + {parameter.name};
        if parameter.hasDefault {
          newRearranged := newRearranged[i := newCount];
          newCount := newCount + 1;
        }
      }
    }
  }

  /**
   * `RearrangeArguments` reads `rearrangedArguments[i]` for every argument
   * position `i`, after defaults; a position with no entry makes the
   * dictionary lookup throw, which the source does not catch.
   */
  predicate OrderComplete(rearranged: map<int, int>, total: nat)
  {
    forall i :: 0 <= i < total ==> i in rearranged
  }

  /** The order in which the arguments are bound, as the source computes it: only defined when every position has an entry. */
  function ArgumentOrderAsWritten(rearranged: map<int, int>, total: nat): (r: seq<int>)
    requires OrderComplete(rearranged, total)
    ensures |r| == total && forall i :: 0 <= i < total ==> r[i] == rearranged[i]
  {
    seq(total, i requires 0 <= i < total => rearranged[i])
  }

  /**
   * A required parameter that only a later named argument skips over: for
   * `f(a, b = 1)` called as `f(b: 2)` the arity check passes and the
   * rearrangement succeeds, but position 0 has no entry.
   */
  lemma MissingRequiredArgumentThrows()
    ensures var c := Call([Some("b")], [0], [Parameter("a", false), Parameter("b", true)], "f", 1);
      var s := RearrangeUpTo(c, 1);
      var d := DefaultsUpTo(c.ps, 2, DefaultsState(s.rearranged, s.seen, 1));
      !ArityRejected(1, c.ps, "f") && s.ok && !OrderComplete(d.rearranged, d.count)
  {
    var c := Call([Some("b")], [0], [Parameter("a", false), Parameter("b", true)], "f", 1);
    assert FirstIndexOf(c.ps, "b") == Some(1);
    assert DefaultCount(c.ps) == 1 by {
      assert c.ps[..1] == [Parameter("a", false)];
    }
    var s := RearrangeUpTo(c, 1);
    assert s.rearranged == map[1 := 0] && s.seen == {"b"};
    assert !IsCaptured(c.ps[0]);
    var d := DefaultsUpTo(c.ps, 2, DefaultsState(s.rearranged, s.seen, 1));
    assert !StartsWith("a", "$") by {
      assert "a"[..1] != "$";
    }
    var d0 := DefaultsStep(c.ps, 0, DefaultsState(s.rearranged, s.seen, 1));
    assert d0 == DefaultsState(map[1 := 0], {"b", "a"}, 1);
    assert DefaultsUpTo(c.ps, 1, DefaultsState(s.rearranged, s.seen, 1)) == d0;
    assert d == DefaultsStep(c.ps, 1, d0);
    assert d == d0;
    assert 0 !in d.rearranged;
  }

  /** The argument order with the missing entry reported instead of thrown: the name of the first parameter without an argument. */
  function ArgumentOrder(ps: seq<Parameter>, rearranged: map<int, int>, total: nat): (r: Result<seq<int>>)
    ensures r.Ok? <==> OrderComplete(rearranged, total)
    ensures r.Ok? ==> r.value == ArgumentOrderAsWritten(rearranged, total)
  {
    match FirstMissing(rearranged, 0, total)
    case None => Ok(ArgumentOrderAsWritten(rearranged, total))
    case Some(i) => Fail(if i < |ps| then ps[i].name else "")
  }

  /** The first position from `lo` on without an entry. */
  function FirstMissing(rearranged: map<int, int>, lo: nat, total: nat): (r: Option<nat>)
    requires lo <= total
    ensures r.None? <==> forall i :: lo <= i < total ==> i in rearranged
    ensures r.Some? ==> lo <= r.value < total && r.value !in rearranged
    decreases total - lo
  {
    if lo == total then None
    else if lo !in rearranged then Some(lo)
    else FirstMissing(rearranged, lo + 1, total)
  }

  // ---------------------------------------------------------------------------
  // Scores

  /** How the argument converts to its parameter type, as `BindCast` classifies it. */
  datatype CastKind = CastKind(isAnyAdding: bool, isImplicit: bool, isIdentity: bool, isNullAdding: bool)

  /** The score one argument adds: 3 for adding `any`, 2 for a non-identity implicit cast, 1 for adding nullability. */
  function CastScore(c: CastKind): (r: nat)
    ensures r <= 6
    ensures r == 0 <==> !c.isAnyAdding && (c.isIdentity || !c.isImplicit) && !c.isNullAdding
    ensures c.isAnyAdding ==> r >= 3
  {
    (if c.isAnyAdding then 3 else 0) + (if c.isImplicit && !c.isIdentity then 2 else 0) + (if c.isNullAdding then 1 else 0)
  }

  /** The score of a whole argument list. */
  function ArgumentsScore(casts: seq<CastKind>): (r: nat)
    ensures r <= 6 * |casts|
  {
    if |casts| == 0 then 0 else ArgumentsScore(casts[..|casts| - 1]) + CastScore(casts[|casts| - 1])
  }

  /** An argument list scores 0 exactly when every argument converts by identity without adding `any` or nullability. */
  lemma {:induction false} ExactMatchScoresZero(casts: seq<CastKind>)
    ensures ArgumentsScore(casts) == 0 <==> forall i :: 0 <= i < |casts| ==> CastScore(casts[i]) == 0
  {
    if |casts| > 0 {
      ExactMatchScoresZero(casts[..|casts| - 1]);
      assert forall i :: 0 <= i < |casts| - 1 ==> casts[..|casts| - 1][i] == casts[i];
    }
  }

  /**
   * `RearrangeArguments`: for each argument position `i`, in order, the
   * argument `rearranged[i]` is cast to parameter `i`'s type (`casts[i]`
   * says how) and its score added. A position without an entry is reported
   * by the name of its parameter rather than thrown.
   */
  method RearrangeArguments(ps: seq<Parameter>, rearranged: map<int, int>, casts: seq<CastKind>, score: int)
    returns (r: Result<(int, seq<int>)>)
    ensures r == (if OrderComplete(rearranged, |casts|)
      then Ok((score + ArgumentsScore(casts), ArgumentOrderAsWritten(rearranged, |casts|)))
      else Fail(ArgumentOrder(ps, rearranged, |casts|).error))
  {
    var total := score;
    var bound: seq<int> := [];
    var i := 0;
    while i < |casts|
      invariant 0 <= i <= |casts|
      invariant forall k :: 0 <= k < i ==> k in rearranged
      invariant total == score + ArgumentsScore(casts[..i])
      invariant |bound| == i && forall k :: 0 <= k < i ==> bound[k] == rearranged[k]
    {
      if i !in rearranged {
        r := Fail(if i < |ps| then ps[i].name else "");
        assert FirstMissing(rearranged, 0, |casts|) == Some(i) by {
          FirstMissingAt(rearranged, 0, i, |casts|);
        }
        return;
      }
      assert casts[..i + 1][..i] == casts[..i];
      bound := bound + [rearranged[i]];
      var c := casts[i];
      if c.isAnyAdding {
        total := total + 3;
      }
      if c.isImplicit && !c.isIdentity {
        total := total + 2;
      }
      if c.isNullAdding {
        total := total + 1;
      }
      i := i + 1;
    }
    assert casts[..|casts|] == casts;
    assert OrderComplete(rearranged, |casts|);
    assert bound == ArgumentOrderAsWritten(rearranged, |casts|);
    r := Ok((total, bound));
  }

  /** The first missing position is `i` when every position before it has an entry. */
  lemma {:induction false} FirstMissingAt(rearranged: map<int, int>, lo: nat, i: nat, total: nat)
    requires lo <= i < total && i !in rearranged
    requires forall k :: lo <= k < i ==> k in rearranged
    ensures FirstMissing(rearranged, lo, total) == Some(i)
    decreases i - lo
  {
    if lo < i {
      FirstMissingAt(rearranged, lo + 1, i, total);
    }
  }

  // ---------------------------------------------------------------------------
  // Choosing the lowest score

  /** What the loop over the candidates learned about one of them: whether binding it pushed diagnostics, its score and its bound arguments. */
  datatype CandidateResult = CandidateResult(addedDiagnostics: bool, score: int, arguments: seq<nat>)

  /** The lowest score among the first `n` candidates that added no diagnostics (`int.MaxValue` if none). */
  function MinScore(rs: seq<CandidateResult>, n: nat): (r: int)
    requires n <= |rs|
    ensures r <= IntMaxValue
    ensures forall i :: 0 <= i < n && !rs[i].addedDiagnostics ==> r <= rs[i].score
    ensures r == IntMaxValue || exists i :: 0 <= i < n && !rs[i].addedDiagnostics && rs[i].score == r
  {
    if n == 0 then IntMaxValue
    else
      var before := MinScore(rs, n - 1);
      if !rs[n - 1].addedDiagnostics && rs[n - 1].score < before then rs[n - 1].score else before
  }

  /** The indices of the first `n` candidates that added no diagnostics and score `score`, in order. */
  function Scoring(rs: seq<CandidateResult>, n: nat, score: int): (r: seq<nat>)
    requires n <= |rs|
    ensures forall k :: 0 <= k < |r| ==> r[k] < n && !rs[r[k]].addedDiagnostics && rs[r[k]].score == score
    ensures forall k, l :: 0 <= k < l < |r| ==> r[k] < r[l]
  {
    if n == 0 then []
    else Scoring(rs, n - 1, score) + (if !rs[n - 1].addedDiagnostics && rs[n - 1].score == score then [n - 1] else [])
  }

  /** No candidate before `n` scores below the running minimum. */
  lemma {:induction false} ScoringBelowMinEmpty(rs: seq<CandidateResult>, n: nat, score: int)
    requires n <= |rs| && score < MinScore(rs, n)
    ensures Scoring(rs, n, score) == []
  {
    if n > 0 {
      ScoringBelowMinEmpty(rs, n - 1, score);
    }
  }

  /**
   * The running state of `MethodOverloadResolution` that `UpdateScore`
   * changes: the best score so far, the candidates with that score, and
   * the bound arguments kept for them.
   */
  class Selection {
    var minScore: int
    var possibleOverloads: seq<nat>
    var boundArguments: seq<nat>

    constructor()
      ensures minScore == IntMaxValue && possibleOverloads == [] && boundArguments == []
    {
      minScore := IntMaxValue;
      possibleOverloads := [];
      boundArguments := [];
    }

    /**
     * `UpdateScore`: a candidate that added diagnostics changes nothing; a
     * lower score replaces the candidates, an equal score joins them (and
     * keeps the shorter argument list).
     */
    method UpdateScore(overload: nat, r: CandidateResult)
      modifies this
      ensures r.addedDiagnostics || r.score > old(minScore) ==>
        minScore == old(minScore) && possibleOverloads == old(possibleOverloads) && boundArguments == old(boundArguments)
      ensures !r.addedDiagnostics && r.score < old(minScore) ==>
        minScore == r.score && possibleOverloads == [overload] && boundArguments == r.arguments
      ensures !r.addedDiagnostics && r.score == old(minScore) ==>
        minScore == old(minScore) && possibleOverloads == old(possibleOverloads) + [overload] &&
        boundArguments == (if |r.arguments| < |old(boundArguments)| then r.arguments else old(boundArguments))
    {
      if !r.addedDiagnostics {
        if r.score < minScore {
          boundArguments := r.arguments;
          minScore := r.score;
          possibleOverloads := [];
        } else if r.score == minScore && |r.arguments| < |boundArguments| {
          boundArguments := r.arguments;
        }
        if r.score == minScore {
          possibleOverloads := possibleOverloads + [overload];
        }
      }
    }

    /** The loop over the candidates: afterwards the possible overloads are exactly the clean candidates with the lowest score, in order. */
    method SelectLowest(rs: seq<CandidateResult>)
      modifies this
      requires minScore == IntMaxValue && possibleOverloads == []
      ensures minScore == MinScore(rs, |rs|)
      ensures possibleOverloads == Scoring(rs, |rs|, minScore)
    {
      var i := 0;
      while i < |rs|
        invariant 0 <= i <= |rs|
        invariant minScore == MinScore(rs, i)
        invariant possibleOverloads == Scoring(rs, i, minScore)
      {
        ghost var before := minScore;
        UpdateScore(i, rs[i]);
        if !rs[i].addedDiagnostics && rs[i].score < before {
          ScoringBelowMinEmpty(rs, i, rs[i].score);
        }
        i := i + 1;
      }
    }
  }

  // ---------------------------------------------------------------------------
  // Tie-breaks

  /** What the tie-breaks know of a candidate; the type-hierarchy answers come in as fields. */
  datatype Candidate = Candidate(
    name: string,
    parameterCount: nat,
    accessibility: BinderChecks.Accessibility,
    receiverInherits: bool,
    receiverIsContaining: bool,
    depth: int)

  /** Accessible from the receiver: public, protected from a derived type, or private from the same type. */
  predicate Accessible(c: Candidate)
  {
    c.accessibility == BinderChecks.PublicAccess ||
    (c.accessibility == BinderChecks.ProtectedAccess && c.receiverInherits) ||
    (c.accessibility == BinderChecks.PrivateAccess && c.receiverIsContaining)
  }

  function AccessibleOnly(cs: seq<Candidate>): (r: seq<Candidate>)
    ensures |r| <= |cs|
    ensures forall k :: 0 <= k < |r| ==> Accessible(r[k]) && r[k] in cs
    ensures forall k :: 0 <= k < |cs| && Accessible(cs[k]) ==> cs[k] in r
  {
    if |cs| == 0 then []
    else AccessibleOnly(cs[..|cs| - 1]) + (if Accessible(cs[|cs| - 1]) then [cs[|cs| - 1]] else [])
  }

  /** The lowest key (`int.MaxValue` if there are none). */
  function MinKey(keys: seq<int>): (r: int)
    ensures r <= IntMaxValue
    ensures forall k :: 0 <= k < |keys| ==> r <= keys[k]
    ensures r == IntMaxValue || exists k :: 0 <= k < |keys| && keys[k] == r
  {
    if |keys| == 0 then IntMaxValue
    else
      var before := MinKey(keys[..|keys| - 1]);
      if keys[|keys| - 1] < before then keys[|keys| - 1] else before
  }

  /** The candidates whose key is `key`, in order. */
  function WithKey(cs: seq<Candidate>, keys: seq<int>, key: int): (r: seq<Candidate>)
    requires |cs| == |keys|
    ensures |r| <= |cs|
    ensures forall k :: 0 <= k < |r| ==> r[k] in cs
  {
    if |cs| == 0 then []
    else WithKey(cs[..|cs| - 1], keys[..|keys| - 1], key) + (if keys[|keys| - 1] == key then [cs[|cs| - 1]] else [])
  }

  /** Every candidate kept by `WithKey` has that key, and each candidate with it is kept. */
  lemma {:induction false} WithKeyExact(cs: seq<Candidate>, keys: seq<int>, key: int, c: Candidate)
    requires |cs| == |keys|
    ensures c in WithKey(cs, keys, key) <==> exists k :: 0 <= k < |cs| && cs[k] == c && keys[k] == key
  {
    if |cs| > 0 {
      var n := |cs| - 1;
      WithKeyExact(cs[..n], keys[..n], key, c);
      assert forall k :: 0 <= k < n ==> cs[..n][k] == cs[k] && keys[..n][k] == keys[k];
      if exists k :: 0 <= k < |cs| && cs[k] == c && keys[k] == key {
        var k :| 0 <= k < |cs| && cs[k] == c && keys[k] == key;
        if k < n {
          assert cs[..n][k] == c && keys[..n][k] == key;
        }
      }
    }
  }

  /** Keys below every key select nothing. */
  lemma {:induction false} WithKeyBelowMin(cs: seq<Candidate>, keys: seq<int>, key: int)
    requires |cs| == |keys| && key < MinKey(keys)
    ensures WithKey(cs, keys, key) == []
  {
    if |cs| > 0 {
      var n := |cs| - 1;
      WithKeyBelowMin(cs[..n], keys[..n], key);
    }
  }

  /**
   * The loops that keep the candidates with the fewest parameters or the
   * shallowest base: a smaller key clears the kept list, an equal key
   * joins it.
   */
  method KeepMinimal(cs: seq<Candidate>, keys: seq<int>) returns (kept: seq<Candidate>)
    requires |cs| == |keys|
    ensures kept == WithKey(cs, keys, MinKey(keys))
  {
    kept := [];
    var minimum := IntMaxValue;
    var i := 0;
    while i < |cs|
      invariant 0 <= i <= |cs|
      invariant minimum == MinKey(keys[..i])
      invariant kept == WithKey(cs[..i], keys[..i], minimum)
    {
      assert cs[..i + 1][..i] == cs[..i] && keys[..i + 1][..i] == keys[..i];
      if keys[i] < minimum {
        WithKeyBelowMin(cs[..i], keys[..i], keys[i]);
        kept := [];
        minimum := keys[i];
      }
      if keys[i] == minimum {
        kept := kept + [cs[i]];
      }
      i := i + 1;
    }
    assert cs[..|cs|] == cs && keys[..|keys|] == keys;
  }

  function ParameterCounts(cs: seq<Candidate>): (r: seq<int>)
    ensures |r| == |cs| && forall k :: 0 <= k < |cs| ==> r[k] == cs[k].parameterCount
  {
    seq(|cs|, k requires 0 <= k < |cs| => cs[k].parameterCount)
  }

  function Depths(cs: seq<Candidate>): (r: seq<int>)
    ensures |r| == |cs| && forall k :: 0 <= k < |cs| ==> r[k] == cs[k].depth
  {
    seq(|cs|, k requires 0 <= k < |cs| => cs[k].depth)
  }

  datatype Outcome = Failed | Ambiguous | Succeeded(best: Option<Candidate>)

  /** `HasValueAny` and `ValueAny`, the built-ins that replace a tie between `HasValue` or `Value` overloads. */
  const HasValueAny := Candidate("HasValue", 1, BinderChecks.PublicAccess, false, false, 0)
  const ValueAny := Candidate("Value", 1, BinderChecks.PublicAccess, false, false, 0)

  /**
   * The end of `MethodOverloadResolution`, after the loop over the
   * `methodCount` candidates left `possible`: a lone candidate whose
   * binding reported an error fails at once; otherwise no overload, a built-in, the
   * tie-breaks (accessible ones if any, then fewest parameters, then
   * shallowest base when there is a receiver), or ambiguity.
   */
  function Decide(methodCount: nat, loneCandidateErred: bool, first: Candidate, possible: seq<Candidate>, hasReceiver: bool, isConstructor: bool, name: string, typeName: string, location: nat): (r: (Outcome, seq<Diagnostic>))
    requires |possible| <= methodCount
    ensures methodCount == 1 && loneCandidateErred ==> r == (Failed, [])
    ensures r.0 == Failed <==> (methodCount == 1 && loneCandidateErred) || (methodCount > 1 && |possible| == 0)
    ensures methodCount > 1 && |possible| == 0 ==> r.0 == Failed && |r.1| == 1
    ensures methodCount == 1 && !loneCandidateErred && |possible| == 0 ==> r == (Succeeded(Some(first)), [])
    ensures r.0 == Ambiguous ==> methodCount > 1 && |possible| > 1 && |r.1| == 1 && r.1[0].AmbiguousMethodOverload?
    ensures r.0.Succeeded? && r.0.best.Some? && methodCount > 1 && r.0.best.value != HasValueAny && r.0.best.value != ValueAny ==>
      r.0.best.value in possible
    ensures |possible| == 1 && (methodCount > 1 || !loneCandidateErred) ==> r == (Succeeded(Some(possible[0])), [])
  {
    if methodCount == 1 && loneCandidateErred then (Failed, [])
    else if methodCount > 1 && |possible| == 0 then
      (Failed, [if isConstructor then NoConstructorOverload(location, typeName) else NoMethodOverload(location, name)])
    else if methodCount > 1 && |possible| > 1 then
      if possible[0].name == "HasValue" then (Succeeded(Some(HasValueAny)), [])
      else if possible[0].name == "Value" then (Succeeded(Some(ValueAny)), [])
      else
        var accessible := if hasReceiver && |AccessibleOnly(possible)| > 0 then AccessibleOnly(possible) else possible;
        var fewest := if |accessible| > 1 then WithKey(accessible, ParameterCounts(accessible), MinKey(ParameterCounts(accessible))) else accessible;
        var nearest := if |fewest| > 1 && hasReceiver then WithKey(fewest, Depths(fewest), MinKey(Depths(fewest))) else fewest;
        if |nearest| > 1 then (Ambiguous, [AmbiguousMethodOverload(location, Names(nearest))])
        else (Succeeded(SingleOrDefault(nearest)), [])
    else if methodCount == 1 && |possible| == 0 then (Succeeded(Some(first)), [])
    else (Succeeded(SingleOrDefault(possible)), [])
  }

  function Names(cs: seq<Candidate>): (r: seq<string>)
    ensures |r| == |cs|
  {
    seq(|cs|, k requires 0 <= k < |cs| => cs[k].name)
  }

  function SingleOrDefault(cs: seq<Candidate>): (r: Option<Candidate>)
    requires |cs| <= 1
    ensures r.Some? <==> |cs| == 1
    ensures r.Some? ==> r.value == cs[0]
  {
    if |cs| == 1 then Some(cs[0]) else None
  }

  /** A tie broken by parameter count picks a candidate with the fewest parameters among those tied. */
  lemma {:induction false} TieBreakPrefersFewerParameters(cs: seq<Candidate>, c: Candidate)
    requires |cs| > 1
    requires c in WithKey(cs, ParameterCounts(cs), MinKey(ParameterCounts(cs)))
    ensures c in cs && forall k :: 0 <= k < |cs| ==> c.parameterCount <= cs[k].parameterCount
  {
    var keys := ParameterCounts(cs);
    WithKeyExact(cs, keys, MinKey(keys), c);
    var k :| 0 <= k < |cs| && cs[k] == c && keys[k] == MinKey(keys);
  }

  /** A tie broken by depth picks a candidate from the nearest base type among those tied. */
  lemma {:induction false} TieBreakPrefersNearestBase(cs: seq<Candidate>, c: Candidate)
    requires |cs| > 1
    requires c in WithKey(cs, Depths(cs), MinKey(Depths(cs)))
    ensures c in cs && forall k :: 0 <= k < |cs| ==> c.depth <= cs[k].depth
  {
    var keys := Depths(cs);
    WithKeyExact(cs, keys, MinKey(keys), c);
    var k :| 0 <= k < |cs| && cs[k] == c && keys[k] == MinKey(keys);
  }

  /** While several candidates tie, the minimum is still among them: a tie-break never empties a non-empty list. */
  lemma TieBreakKeepsOne(cs: seq<Candidate>, keys: seq<int>)
    requires |cs| == |keys| > 0 && forall k :: 0 <= k < |keys| ==> keys[k] <= IntMaxValue
    ensures |WithKey(cs, keys, MinKey(keys))| > 0
  {
    var m := MinKey(keys);
    if m == IntMaxValue {
      WithKeyExact(cs, keys, m, cs[0]);
    } else {
      var k :| 0 <= k < |keys| && keys[k] == m;
      WithKeyExact(cs, keys, m, cs[k]);
    }
  }

  // ---------------------------------------------------------------------------
  // Diagnostics

  /**
   * `CleanUpDiagnostics`: with several overloads the candidates' own
   * diagnostics are discarded and the earlier ones restored; with one, the
   * earlier ones come back in front of the candidate's.
   */
  function CleanUpDiagnostics(overloadCount: nat, current: seq<Diagnostic>, saved: seq<Diagnostic>): (r: seq<Diagnostic>)
    ensures overloadCount > 1 ==> r == saved
    ensures overloadCount == 1 ==> |r| == |saved| + |current| && r[..|saved|] == saved && r[|saved|..] == current
    ensures overloadCount == 0 ==> r == current
  {
    if overloadCount > 1 then saved
    else if overloadCount == 1 then saved + current
    else current
  }
}
