/**
 * A compilation (CodeAnalysis/Compilation.cs): one submission's syntax trees, a link to the
 * previous submission in the REPL chain, and a global scope bound on first use and then kept.
 * `GetSymbols` lists the global symbols of the whole chain, newest submission first, each
 * name once; `Evaluate` refuses to run a program whose binding reported errors.
 */
module Compilation {
  import opened Wrappers

  datatype SymbolKind = FunctionKind | VariableKind | TypeKind

  /**
   * A global symbol, identified by its key: a function's signature without return type and
   * parameter names, or the name of a variable or type.
   */
  datatype Symbol = Symbol(kind: SymbolKind, key: string)

  /** A reported problem; whether it is only a warning is all that matters here. */
  datatype Diagnostic = Diagnostic(isWarning: bool, message: string)

  /** What binding a submission's trees produces. */
  datatype GlobalScope = GlobalScope(
    functions: seq<Symbol>, variables: seq<Symbol>, types: seq<Symbol>, diagnostics: seq<Diagnostic>)

  /** `FilterOut(DiagnosticType.Warning).Any()`: some diagnostic is more than a warning. */
  predicate HasErrors(diagnostics: seq<Diagnostic>)
  {
    exists i :: 0 <= i < |diagnostics| && !diagnostics[i].isWarning
  }

  // ---------------------------------------------------------------------------------------
  // The symbol walk, as a function of the symbols offered in order

  /** The keys of a list of symbols. */
  function Keys(xs: seq<Symbol>): set<string>
  {
    set i | 0 <= i < |xs| :: xs[i].key
  }

  /** What the walk has gathered so far: the symbols found and the keys seen. */
  datatype WalkState = WalkState(found: seq<Symbol>, seen: set<string>)

  const Start := WalkState([], {})

  /**
   * One symbol offered to the walk (`seenSymbolNames.Add(key) && symbol is T`): a symbol
   * whose key is new is marked seen, and is kept when it is of a wanted kind. A symbol of an
   * unwanted kind still hides later symbols with its key.
   */
  function Step(st: WalkState, x: Symbol, wanted: set<SymbolKind>): WalkState
  {
    if x.key in st.seen then st
    else WalkState(st.found + (if x.kind in wanted then [x] else []), st.seen + {x.key})
  }

  /** Symbols offered in order. */
  function Scan(xs: seq<Symbol>, st: WalkState, wanted: set<SymbolKind>): WalkState
  {
    if xs == [] then st else Step(Scan(xs[..|xs| - 1], st, wanted), xs[|xs| - 1], wanted)
  }

  /** Offering two lists one after the other is offering the second to what the first left. */
  lemma {:induction false} ScanAppend(a: seq<Symbol>, b: seq<Symbol>, st: WalkState, wanted: set<SymbolKind>)
    ensures Scan(a + b, st, wanted) == Scan(b, Scan(a, st, wanted), wanted)
    decreases |b|
  {
    if b == [] {
      assert a + b == a;
    } else {
      assert (a + b)[..|a + b| - 1] == a + b[..|b| - 1];
      ScanAppend(a, b[..|b| - 1], st, wanted);
    }
  }

  /** Whether `xs[i]` is the first symbol in `xs` with its key. */
  predicate FirstWithKey(xs: seq<Symbol>, i: int)
    requires 0 <= i < |xs|
  {
    forall j :: 0 <= j < i ==> xs[j].key != xs[i].key
  }

  /**
   * What the walk keeps, started afresh: it has seen exactly the offered keys, and every
   * symbol it kept is wanted and the first offered symbol with its key; no key is kept twice.
   */
  lemma {:induction false} ScanSound(xs: seq<Symbol>, wanted: set<SymbolKind>)
    ensures var st := Scan(xs, Start, wanted);
      st.seen == Keys(xs)
      && (forall k :: 0 <= k < |st.found| ==>
            (st.found[k].kind in wanted && exists i :: 0 <= i < |xs| && xs[i] == st.found[k] && FirstWithKey(xs, i)))
      && (forall k, l :: 0 <= k < l < |st.found| ==> st.found[k].key != st.found[l].key)
    decreases |xs|
  {
    if xs != [] {
      var p, x := xs[..|xs| - 1], xs[|xs| - 1];
      assert xs == p + [x];
      ScanSound(p, wanted);
      var before := Scan(p, Start, wanted);
      var st := Scan(xs, Start, wanted);
      assert Keys(xs) == Keys(p) + {x.key} by {
        forall key | key in Keys(xs) ensures key in Keys(p) + {x.key} {
          var i :| 0 <= i < |xs| && xs[i].key == key;
          if i < |p| { assert xs[i] == p[i]; }
        }
        forall key | key in Keys(p) ensures key in Keys(xs) {
          var i :| 0 <= i < |p| && p[i].key == key;
          assert xs[i] == p[i];
        }
      }
      forall k | 0 <= k < |before.found|
        ensures exists i :: 0 <= i < |xs| && xs[i] == before.found[k] && FirstWithKey(xs, i)
      {
        var i :| 0 <= i < |p| && p[i] == before.found[k] && FirstWithKey(p, i);
        assert xs[i] == p[i];
        assert FirstWithKey(xs, i) by {
          forall j | 0 <= j < i ensures xs[j].key != xs[i].key { assert xs[j] == p[j]; }
        }
      }
      if x.key !in before.seen && x.kind in wanted {
        assert st.found == before.found + [x];
        assert FirstWithKey(xs, |p|) by {
          forall j | 0 <= j < |p| ensures xs[j].key != x.key {
            assert xs[j] == p[j];
            assert p[j].key in Keys(p);
          }
        }
        forall k | 0 <= k < |before.found| ensures before.found[k].key in before.seen {
          var i :| 0 <= i < |p| && p[i] == before.found[k] && FirstWithKey(p, i);
        }
      }
    }
  }

  /**
   * What the walk does not lose, started afresh: the first offered symbol with a key is
   * kept when it is wanted.
   */
  lemma {:induction false} ScanComplete(xs: seq<Symbol>, wanted: set<SymbolKind>, i: int)
    requires 0 <= i < |xs| && FirstWithKey(xs, i) && xs[i].kind in wanted
    ensures xs[i] in Scan(xs, Start, wanted).found
    decreases |xs|
  {
    var p, x := xs[..|xs| - 1], xs[|xs| - 1];
    assert xs == p + [x];
    var before := Scan(p, Start, wanted);
    ScanSound(p, wanted);
    if i < |p| {
      assert p[i] == xs[i];
      assert FirstWithKey(p, i) by {
        forall j | 0 <= j < i ensures p[j].key != p[i].key { assert p[j] == xs[j]; }
      }
      ScanComplete(p, wanted, i);
    } else {
      assert x.key !in Keys(p) by {
        forall j | 0 <= j < |p| ensures p[j].key != x.key { assert p[j] == xs[j]; }
      }
    }
  }

  /**
   * The symbols one submission offers, in the order `GetSymbols` visits them: its functions,
   * then the built-in functions, then its variables, then its types.
   */
  function Offered(scope: GlobalScope, builtins: seq<Symbol>): seq<Symbol>
  {
    scope.functions + builtins + scope.variables + scope.types
  }

  /** The symbols a chain of submissions offers, newest first. */
  function OfferedAll(scopes: seq<GlobalScope>, builtins: seq<Symbol>): seq<Symbol>
  {
    if scopes == [] then [] else OfferedAll(scopes[..|scopes| - 1], builtins) + Offered(scopes[|scopes| - 1], builtins)
  }

  /**
   * What `GetSymbols` yields for a chain of scopes: the first symbol offered under each
   * key, when it is of a wanted kind.
   */
  function Symbols(scopes: seq<GlobalScope>, builtins: seq<Symbol>, wanted: set<SymbolKind>): seq<Symbol>
  {
    Scan(OfferedAll(scopes, builtins), Start, wanted).found
  }

  /**
   * A newer submission's symbol hides an older one's with the same key: among all offered
   * symbols, each key is yielded at most once, by its first occurrence, and that occurrence
   * is yielded whenever it is wanted.
   */
  lemma SymbolsFirstOccurrence(scopes: seq<GlobalScope>, builtins: seq<Symbol>, wanted: set<SymbolKind>)
    ensures var xs, r := OfferedAll(scopes, builtins), Symbols(scopes, builtins, wanted);
      (forall k, l :: 0 <= k < l < |r| ==> r[k].key != r[l].key)
      && (forall k :: 0 <= k < |r| ==>
            (r[k].kind in wanted && exists i :: 0 <= i < |xs| && xs[i] == r[k] && FirstWithKey(xs, i)))
      && (forall i :: 0 <= i < |xs| && FirstWithKey(xs, i) && xs[i].kind in wanted ==> xs[i] in r)
  {
    var xs := OfferedAll(scopes, builtins);
    ScanSound(xs, wanted);
    var r := Symbols(scopes, builtins, wanted);
    assert r == Scan(xs, Start, wanted).found;
    forall i | 0 <= i < |xs| && FirstWithKey(xs, i) && xs[i].kind in wanted
      ensures xs[i] in Symbols(scopes, builtins, wanted)
    {
      ScanComplete(xs, wanted, i);
    }
  }

  // ---------------------------------------------------------------------------------------
  // Submissions

  class Submission {
    const isScript: bool
    const previous: Submission?
    /** The submission chain behind this one, nearest first. */
    ghost const earlier: seq<Submission>
    /**
     * The scope the binder gives these trees; the binder itself is not part of this model.
     * Binding is deterministic, so the cached `_globalScope` is either unset or this scope.
     */
    const bound: GlobalScope
    /** Whether `_globalScope` has been set. */
    var isBound: bool
    /** How many times this submission has been bound. */
    ghost var bindings: nat

    /** The chain behind this submission is linked through `previous`. */
    ghost predicate Linked()
    {
      (previous == if earlier == [] then null else earlier[0])
      && forall i :: 0 <= i < |earlier| ==>
           earlier[i].previous == (if i + 1 < |earlier| then earlier[i + 1] else null)
    }

    /** This submission and the ones behind it, newest first. */
    ghost function Chain(): seq<Submission>
    {
      [this] + earlier
    }

    /** The scopes of the chain, newest first. */
    ghost function Scopes(): (r: seq<GlobalScope>)
      ensures |r| == |Chain()| && forall i :: 0 <= i < |r| ==> r[i] == Chain()[i].bound
    {
      seq(|Chain()|, i requires 0 <= i < |Chain()| => Chain()[i].bound)
    }

    /** `Create` and `CreateScript`: a new submission on top of an optional previous one. */
    constructor (isScript: bool, previous: Submission?, bound: GlobalScope)
      requires previous != null ==> previous.Linked()
      ensures this.isScript == isScript && this.previous == previous && this.bound == bound
      ensures earlier == if previous == null then [] else previous.Chain()
      ensures !isBound && bindings == 0
      ensures Linked()
    {
      this.isScript := isScript;
      this.previous := previous;
      this.bound := bound;
      earlier := if previous == null then [] else [previous] + previous.earlier;
      isBound := false;
      bindings := 0;
      new;
      LinkedOnTop(previous);
    }

    /** Putting a submission on top of a linked chain keeps it linked. */
    lemma LinkedOnTop(p: Submission?)
      requires p == previous && (p != null ==> p.Linked())
      requires earlier == if p == null then [] else [p] + p.earlier
      ensures Linked()
    {
      if p != null {
        forall i | 0 <= i < |earlier|
          ensures earlier[i].previous == (if i + 1 < |earlier| then earlier[i + 1] else null)
        {
          if i > 0 {
            assert earlier[i] == p.earlier[i - 1];
            assert i < |p.earlier| ==> earlier[i + 1] == p.earlier[i];
          }
        }
      }
    }

    /** Following `previous` from the `n`th submission of the chain reaches the next one. */
    lemma NextInChain(n: nat)
      requires Linked() && n < |Chain()|
      ensures Chain()[n].previous == if n + 1 < |Chain()| then Chain()[n + 1] else null
    {
      if n > 0 {
        assert Chain()[n] == earlier[n - 1];
        assert n + 1 < |Chain()| ==> Chain()[n + 1] == earlier[n];
        assert earlier[n - 1].previous == if n < |earlier| then earlier[n] else null;
      }
    }

    /**
     * `globalScope`: binds on the first request only and hands back the same scope every
     * time after.
     */
    method GlobalScope() returns (r: GlobalScope)
      modifies this
      ensures r == bound && isBound
      ensures bindings == if old(isBound) then old(bindings) else old(bindings) + 1
    {
      if !isBound {
        isBound := true;
        bindings := bindings + 1;
      }
      r := bound;
    }

    /**
     * `GetSymbols<T>`: walks from this submission to the oldest one, offering each
     * submission's symbols to one shared set of seen keys. Every submission on the way has
     * its scope bound afterwards.
     */
    method GetSymbols(builtins: seq<Symbol>, wanted: set<SymbolKind>) returns (r: seq<Symbol>)
      requires Linked()
      modifies set s | s in Chain()
      ensures r == Symbols(Scopes(), builtins, wanted)
      ensures forall s :: s in Chain() ==> s.isBound
    {
      ghost var all := Scopes();
      ghost var chain := Chain();
      var submission: Submission? := this;
      var st := Start;
      ghost var n := 0;
      while submission != null
        invariant 0 <= n <= |chain|
        invariant submission == if n < |chain| then chain[n] else null
        invariant forall i :: 0 <= i < n ==> chain[i].isBound
        invariant st == Scan(OfferedAll(all[..n], builtins), Start, wanted)
        decreases |chain| - n
      {
        NextInChain(n);
        var scope := submission.GlobalScope();
        assert all[..n + 1][..n] == all[..n];
        ScanAppend(OfferedAll(all[..n], builtins), Offered(scope, builtins), Start, wanted);
        st := OfferSubmission(scope, builtins, wanted, st);
        submission := submission.previous;
        n := n + 1;
      }
      assert all[..n] == all;
      r := st.found;
    }

    /**
     * `Evaluate`'s early exits, taken on this submission's scope and on the diagnostics of
     * the program lowered from it.
     */
    method Evaluate(program: seq<Diagnostic>, wError: bool) returns (r: Outcome)
      modifies this
      ensures r == EvaluateOutcome(bound.diagnostics, program, wError) && isBound
    {
      var scope := GlobalScope();
      r := EvaluateOutcome(scope.diagnostics, program, wError);
    }
  }

  /** One turn of the `GetSymbols` walk: a submission's four lists, offered in order. */
  method OfferSubmission(scope: GlobalScope, builtins: seq<Symbol>, wanted: set<SymbolKind>, st: WalkState)
    returns (r: WalkState)
    ensures r == Scan(Offered(scope, builtins), st, wanted)
  {
    var f, b, v, t := scope.functions, builtins, scope.variables, scope.types;
    ScanAppend(f + b + v, t, st, wanted);
    ScanAppend(f + b, v, st, wanted);
    ScanAppend(f, b, st, wanted);
    r := Offer(f, st, wanted);
    r := Offer(b, r, wanted);
    r := Offer(v, r, wanted);
    r := Offer(t, r, wanted);
  }

  /** One `foreach` of `GetSymbols`. */
  method Offer(xs: seq<Symbol>, st: WalkState, wanted: set<SymbolKind>) returns (r: WalkState)
    ensures r == Scan(xs, st, wanted)
  {
    var found, seen := st.found, st.seen;
    var i := 0;
    while i < |xs|
      invariant 0 <= i <= |xs|
      invariant WalkState(found, seen) == Scan(xs[..i], st, wanted)
    {
      assert xs[..i + 1][..i] == xs[..i];
      if xs[i].key !in seen {
        seen := seen + {xs[i].key};
        if xs[i].kind in wanted {
          found := found + [xs[i]];
        }
      }
      i := i + 1;
    }
    assert xs[..i] == xs;
    r := WalkState(found, seen);
  }

  // ---------------------------------------------------------------------------------------
  // Evaluate

  /** How `Evaluate` ends: rejected with the diagnostics that stopped it, or run. */
  datatype Outcome = Rejected(diagnostics: seq<Diagnostic>) | Run

  /**
   * `Evaluate`'s two early exits: errors while binding the global scope, then errors in the
   * lowered program, or under `wError` any diagnostic at all.
   */
  function EvaluateOutcome(scope: seq<Diagnostic>, program: seq<Diagnostic>, wError: bool): (r: Outcome)
    ensures r.Rejected? <==> HasErrors(scope) || HasErrors(program) || (wError && program != [])
    ensures HasErrors(scope) ==> r == Rejected(scope)
    ensures !HasErrors(scope) && r.Rejected? ==> r == Rejected(program)
    ensures r.Rejected? && !wError ==> HasErrors(r.diagnostics)
  {
    if HasErrors(scope) then Rejected(scope)
    else if HasErrors(program) || (program != [] && wError) then Rejected(program)
    else Run
  }

  /** Warnings alone never stop a program unless they are treated as errors. */
  lemma WarningsDoNotStop(scope: seq<Diagnostic>, program: seq<Diagnostic>)
    requires forall i :: 0 <= i < |scope| ==> scope[i].isWarning
    requires forall i :: 0 <= i < |program| ==> program[i].isWarning
    ensures EvaluateOutcome(scope, program, false) == Run
    ensures program != [] ==> EvaluateOutcome(scope, program, true) == Rejected(program)
  {
  }
}
