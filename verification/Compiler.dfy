/** The Thinkerbell script compiler (components/thinkerbell/src/compile.rs, util.rs, ast.rs). */
module Compiler {
  import opened Common
  import opened Services
  import opened Selectors
  import opened Requests
  import opened Values

  datatype Match = Match(source: seq<Selector>, kind: ChannelKind, range: Values.Range, duration: Option<int>)
  datatype Statement = Statement(destination: seq<Selector>, value: Value, kind: ChannelKind)
  datatype Rule = Rule(conditions: seq<Match>, execute: seq<Statement>)
  datatype Script = Script(name: string, rules: seq<Rule>)

  datatype CompileError =
    | NoRule | NoStatement | NoMatch | NoMatchSource | NoStatementDestination
    | InvalidRange | KindAndRangeDoNotAgree | KindAndValueDoNotAgree

  // ---------------------------------------------------------------- error-stopping map

  method Map<T, U, E>(xs: seq<T>, f: T -> Result<U, E>) returns (r: Result<seq<U>, E>)
    ensures r == MapAll(xs, f)
  {
    var result: seq<U> := [];
    for i := 0 to |xs|
      invariant |result| == i
      invariant forall j :: 0 <= j < i ==> f(xs[j]) == Ok(result[j])
    {
      var value := f(xs[i]);
      if value.Err? {
        MapAllStops(xs, f, i);
        return Err(value.error);
      }
      result := result + [value.value];
    }
    MapAllCollects(xs, f, result);
    return Ok(result);
  }

  lemma {:induction false} MapAllStops<T, U, E>(xs: seq<T>, f: T -> Result<U, E>, i: nat)
    requires i < |xs| && f(xs[i]).Err? && forall j :: 0 <= j < i ==> f(xs[j]).Ok?
    ensures MapAll(xs, f) == Err(f(xs[i]).error)
  {
    if i > 0 {
      MapAllStops(xs[1..], f, i - 1);
    }
  }

  lemma {:induction false} MapAllCollects<T, U, E>(xs: seq<T>, f: T -> Result<U, E>, result: seq<U>)
    requires |result| == |xs| && forall j :: 0 <= j < |xs| ==> f(xs[j]) == Ok(result[j])
    ensures MapAll(xs, f) == Ok(result)
  {
    if xs != [] {
      MapAllCollects(xs[1..], f, result[1..]);
      assert result == [result[0]] + result[1..];
    }
  }

  /** The map succeeds iff every element does, and then element by element; otherwise it reports the error
      of the first element that fails. */
  lemma MapAllExactly<T, U, E>(xs: seq<T>, f: T -> Result<U, E>)
    ensures MapAll(xs, f).Ok? <==> forall i :: 0 <= i < |xs| ==> f(xs[i]).Ok?
    ensures MapAll(xs, f).Ok? ==> forall i :: 0 <= i < |xs| ==> f(xs[i]) == Ok(MapAll(xs, f).value[i])
    ensures MapAll(xs, f).Err? ==>
      exists i :: 0 <= i < |xs| && f(xs[i]) == Err(MapAll(xs, f).error) && forall j :: 0 <= j < i ==> f(xs[j]).Ok?
  {
  }

  // ---------------------------------------------------------------- the compiler

  /** The selectors, each restricted to the stated kind. */
  function Restricted(sels: seq<Selector>, k: ChannelKind): (r: seq<Selector>)
    ensures |r| == |sels|
    ensures forall i :: 0 <= i < |r| ==> r[i] == sels[i].WithKind(k)
  {
    seq(|sels|, i requires 0 <= i < |sels| => sels[i].WithKind(k))
  }

  function CompileScript(script: Script): Result<Script, CompileError> {
    if |script.rules| == 0 then Err(NoRule)
    else
      var rules :- MapAll(script.rules, CompileRule);
      Ok(Script(script.name, rules))
  }

  function CompileRule(rule: Rule): Result<Rule, CompileError> {
    if |rule.execute| == 0 then Err(NoStatement)
    else if |rule.conditions| == 0 then Err(NoMatch)
    else
      var conditions :- MapAll(rule.conditions, CompileMatch);
      var execute :- MapAll(rule.execute, CompileStatement);
      Ok(Rule(conditions, execute))
  }

  function CompileMatch(m: Match): Result<Match, CompileError> {
    if |m.source| == 0 then Err(NoMatchSource)
    else match RangeType(m.range)
      case None => Err(InvalidRange)
      case Some(typ) =>
        if KindType(m.kind) != typ then Err(KindAndRangeDoNotAgree)
        else Ok(m.(source := Restricted(m.source, m.kind)))
  }

  function CompileStatement(s: Statement): Result<Statement, CompileError> {
    if |s.destination| == 0 then Err(NoStatementDestination)
    else if KindType(s.kind) != TypeOf(s.value) then Err(KindAndValueDoNotAgree)
    else Ok(s.(destination := Restricted(s.destination, s.kind)))
  }

  // ---------------------------------------------------------------- what a script must satisfy

  predicate GoodMatch(m: Match) {
    m.source != [] && RangeType(m.range) == Some(KindType(m.kind))
  }

  predicate GoodStatement(s: Statement) {
    s.destination != [] && TypeOf(s.value) == KindType(s.kind)
  }

  predicate GoodRule(r: Rule) {
    && r.conditions != [] && r.execute != []
    && (forall m :: m in r.conditions ==> GoodMatch(m))
    && (forall s :: s in r.execute ==> GoodStatement(s))
  }

  predicate GoodScript(s: Script) {
    s.rules != [] && forall r :: r in s.rules ==> GoodRule(r)
  }

  predicate CompiledRule(r: Rule, c: Rule) {
    && |c.conditions| == |r.conditions| && |c.execute| == |r.execute|
    && (forall i :: 0 <= i < |r.conditions| ==>
          c.conditions[i] == r.conditions[i].(source := Restricted(r.conditions[i].source, r.conditions[i].kind)))
    && (forall i :: 0 <= i < |r.execute| ==>
          c.execute[i] == r.execute[i].(destination := Restricted(r.execute[i].destination, r.execute[i].kind)))
  }

  lemma RuleCompilesExactly(r: Rule)
    ensures CompileRule(r).Ok? <==> GoodRule(r)
    ensures CompileRule(r).Ok? ==> CompiledRule(r, CompileRule(r).value)
  {
    MapAllExactly(r.conditions, CompileMatch);
    MapAllExactly(r.execute, CompileStatement);
    if CompileRule(r).Ok? {
      forall m | m in r.conditions ensures GoodMatch(m) {
        var i :| 0 <= i < |r.conditions| && r.conditions[i] == m;
        assert CompileMatch(r.conditions[i]).Ok?;
      }
      forall s | s in r.execute ensures GoodStatement(s) {
        var i :| 0 <= i < |r.execute| && r.execute[i] == s;
        assert CompileStatement(r.execute[i]).Ok?;
      }
    }
    if GoodRule(r) {
      forall i | 0 <= i < |r.conditions| ensures CompileMatch(r.conditions[i]).Ok? {
        assert GoodMatch(r.conditions[i]);
      }
      forall i | 0 <= i < |r.execute| ensures CompileStatement(r.execute[i]).Ok? {
        assert GoodStatement(r.execute[i]);
      }
    }
  }

  /** Compilation succeeds iff every listed non-emptiness and type check holds; the compiled script then
      differs only in its selectors, each restricted to the stated kind. */
  lemma ScriptCompilesExactly(s: Script)
    ensures CompileScript(s).Ok? <==> GoodScript(s)
    ensures CompileScript(s).Ok? ==>
      var c := CompileScript(s).value;
      c.name == s.name && |c.rules| == |s.rules| && forall i :: 0 <= i < |s.rules| ==> CompiledRule(s.rules[i], c.rules[i])
  {
    MapAllExactly(s.rules, CompileRule);
    forall i | 0 <= i < |s.rules|
      ensures CompileRule(s.rules[i]).Ok? <==> GoodRule(s.rules[i])
      ensures CompileRule(s.rules[i]).Ok? ==> CompiledRule(s.rules[i], CompileRule(s.rules[i]).value)
    {
      RuleCompilesExactly(s.rules[i]);
    }
    if forall i :: 0 <= i < |s.rules| ==> GoodRule(s.rules[i]) {
      assert forall r :: r in s.rules ==> GoodRule(r);
    }
  }

  /** What is wrong with a rule when compiling it reports `e`. */
  predicate RuleReproaches(r: Rule, e: CompileError) {
    match e
    case NoRule => false
    case NoStatement => r.execute == []
    case NoMatch => r.conditions == []
    case NoMatchSource => exists m :: m in r.conditions && m.source == []
    case InvalidRange => exists m :: m in r.conditions && RangeType(m.range) == None
    case KindAndRangeDoNotAgree =>
      exists m :: m in r.conditions && RangeType(m.range).Some? && RangeType(m.range).value != KindType(m.kind)
    case NoStatementDestination => exists t :: t in r.execute && t.destination == []
    case KindAndValueDoNotAgree => exists t :: t in r.execute && TypeOf(t.value) != KindType(t.kind)
  }

  lemma RuleErrorsAreTrue(r: Rule)
    requires CompileRule(r).Err?
    ensures RuleReproaches(r, CompileRule(r).error)
  {
    var e := CompileRule(r).error;
    MapAllExactly(r.conditions, CompileMatch);
    MapAllExactly(r.execute, CompileStatement);
    if r.execute != [] && r.conditions != [] {
      if MapAll(r.conditions, CompileMatch).Err? {
        var j :| 0 <= j < |r.conditions| && CompileMatch(r.conditions[j]) == Err(e);
        assert r.conditions[j] in r.conditions;
      } else {
        var j :| 0 <= j < |r.execute| && CompileStatement(r.execute[j]) == Err(e);
        assert r.execute[j] in r.execute;
      }
    }
  }

  /** An error names a fault that the script has, in a rule all of whose predecessors are good. */
  lemma ErrorsAreTrue(s: Script)
    requires CompileScript(s).Err?
    ensures var e := CompileScript(s).error;
      if s.rules == [] then e == NoRule
      else exists i :: 0 <= i < |s.rules| && RuleReproaches(s.rules[i], e) && forall j :: 0 <= j < i ==> GoodRule(s.rules[j])
  {
    var e := CompileScript(s).error;
    MapAllExactly(s.rules, CompileRule);
    if s.rules != [] {
      var i :| 0 <= i < |s.rules| && CompileRule(s.rules[i]) == Err(e) && forall j :: 0 <= j < i ==> CompileRule(s.rules[j]).Ok?;
      RuleErrorsAreTrue(s.rules[i]);
      forall j | 0 <= j < i ensures GoodRule(s.rules[j]) {
        RuleCompilesExactly(s.rules[j]);
      }
    }
  }

  // ---------------------------------------------------------------- what compiled selectors and statements do

  /** A restricted list selects exactly the channels that the source list selects and that have the kind. */
  lemma RestrictedSelectsKind(sels: seq<Selector>, k: ChannelKind, serviceTags: set<Id>, c: Channel)
    ensures MatchesAny(Restricted(sels, k), serviceTags, c) <==> MatchesAny(sels, serviceTags, c) && c.kind == k
  {
    var restricted := Restricted(sels, k);
    if MatchesAny(restricted, serviceTags, c) {
      var i :| 0 <= i < |restricted| && restricted[i].Matches(serviceTags, c);
      WithKindRestricts(sels[i], k, serviceTags, c);
      assert sels[i] in sels;
    }
    if MatchesAny(sels, serviceTags, c) && c.kind == k {
      var i :| 0 <= i < |sels| && sels[i].Matches(serviceTags, c);
      WithKindRestricts(sels[i], k, serviceTags, c);
      assert restricted[i] in restricted;
    }
  }

  /** Evaluating a compiled statement: the value goes to every setter that the source selectors select and
      that has the stated kind, grouped by adapter, and no setter fails with a type error, in any registry. */
  lemma CompiledStatementIsWellTyped(s: Statement, views: map<Id, View>, a: Id)
    requires CompileStatement(s).Ok?
    ensures var sent := SendSpec(views, [Targetted(CompileStatement(s).value.destination, s.value)]);
      a in sent ==>
        && sent[a].failures == map[]
        && sent[a].request == map id | id in views && views[id].channel.adapter == a
                                       && views[id].SelectedBy(s.destination) && views[id].channel.kind == s.kind :: s.value
    ensures var sent := SendSpec(views, [Targetted(CompileStatement(s).value.destination, s.value)]);
      forall id :: id in views && views[id].SelectedBy(s.destination) && views[id].channel.kind == s.kind
        ==> views[id].channel.adapter in sent
  {
    var t := Targetted(CompileStatement(s).value.destination, s.value);
    var seen := AllSaw(views, [t]);
    forall id | id in views
      ensures Got(views, seen, id, false) == None
      ensures Got(views, seen, id, true)
           == if views[id].SelectedBy(s.destination) && views[id].channel.kind == s.kind then Some(s.value) else None
    {
      RestrictedSelectsKind(s.destination, s.kind, views[id].serviceTags, views[id].channel);
      LastHitStep(views[id], [], t, true);
      LastHitStep(views[id], [], t, false);
      assert [] + [t] == [t];
    }
    assert FailuresOf(views, seen, a) == map[];
  }
}
