/**
 The inputs of a task. They are resolved one after the other, from the highest priority to the lowest, and each resolved
 input is in the scope of those after it. Functions and expressions are abstract.
 */
module Inputs {
  import opened Types
  import opened TypedValues

  type Outputs = map<Id, TypedValue>

  /** What an expression can see that changes during an invocation: the task it is evaluated for, the inputs of that
      task as far as they are resolved, and the outputs so far. */
  datatype Scope = Scope(task: Id, own: map<string, GoValue>, outputs: Outputs)

  /** The function runtimes and the expression evaluator. `read` is what an expression that only looks up an output
      makes of it, and `order` how the sort leaves the inputs of a task, which is open for equal priorities. */
  datatype Runtime = Runtime(
    run: (string, map<string, TypedValue>) -> TypedValue,
    eval: (string, Scope) -> TypedValue,
    read: (string, TypedValue) -> TypedValue,
    order: (Id, map<string, TypedValue>) -> seq<string>)

  // ---------- Decimal notation ----------

  function Digit(d: nat): char
    requires d < 10
  {
    (d + '0' as int) as char
  }

  /** Decimal notation. */
  function Itoa(n: nat): (s: string)
    ensures |s| >= 1 && forall i | 0 <= i < |s| :: '0' <= s[i] <= '9'
  {
    if n < 10 then [Digit(n)] else Itoa(n / 10) + [Digit(n % 10)]
  }

  function Atoi(s: string): int {
    if s == "" then 0 else 10 * Atoi(s[..|s| - 1]) + (s[|s| - 1] as int - '0' as int)
  }

  lemma {:induction false} AtoiItoa(n: nat)
    ensures Atoi(Itoa(n)) == n
  {
    if n < 10 {
      assert Atoi([Digit(n)]) == 10 * Atoi("") + n by { assert [Digit(n)][..0] == ""; }
    } else {
      AtoiItoa(n / 10);
      var s := Itoa(n);
      assert s[..|s| - 1] == Itoa(n / 10);
    }
  }

  // ---------- Priorities of inputs ----------

  /** Sets a key of the annotations. */
  function WithMetadata(tv: TypedValue, k: string, v: string): TypedValue {
    tv.(metadata := tv.metadata[k := v])
  }

  predicate IsDigits(s: string) {
    s != "" && forall i | 0 <= i < |s| :: '0' <= s[i] <= '9'
  }

  /** Decimal notation with an optional sign, within 64 bits. */
  function ParseInt(s: string): Option<int> {
    var signed := s != "" && (s[0] == '-' || s[0] == '+');
    var digits := if signed then s[1..] else s;
    if !IsDigits(digits) then None else
    var n := if signed && s[0] == '-' then -Atoi(digits) else Atoi(digits);
    if -0x8000_0000_0000_0000 <= n < 0x8000_0000_0000_0000 then Some(n) else None
  }

  /** Zero unless the metadata say otherwise; a priority that cannot be read is ignored. */
  function Priority(tv: TypedValue): int {
    if "priority" !in tv.metadata then 0 else
    var p := ParseInt(tv.metadata["priority"]);
    if p.Some? then p.value else 0
  }

  lemma ParsesDigits(digits: string)
    requires IsDigits(digits)
    ensures var n: int := Atoi(digits);
      && ParseInt(digits) == ParseInt("+" + digits)
      && ParseInt(digits) == (if -0x8000_0000_0000_0000 <= n < 0x8000_0000_0000_0000 then Some(n) else None)
      && ParseInt("-" + digits) == (if -0x8000_0000_0000_0000 < n <= 0x8000_0000_0000_0000 then Some(-n) else None)
  {
    hide Atoi;
    assert ("+" + digits)[1..] == digits && ("-" + digits)[1..] == digits;
  }

  /** Decimal notation is read as the number that it denotes, with or without a sign, as long as that fits 64 bits. */
  lemma ParsesDecimals(n: nat)
    ensures var m: int := n;
      && ParseInt(Itoa(n)) == ParseInt("+" + Itoa(n))
      && ParseInt(Itoa(n)) == (if m < 0x8000_0000_0000_0000 then Some(m) else None)
      && ParseInt("-" + Itoa(n)) == (if m <= 0x8000_0000_0000_0000 then Some(-m) else None)
  {
    var digits := Itoa(n);
    AtoiItoa(n);
    hide Atoi, Itoa, ParseInt;
    ParsesDigits(digits);
  }

  /** What is no number is no priority. */
  lemma ParsesOnlyDecimals(s: string, i: nat)
    ensures 1 <= i < |s| && !('0' <= s[i] <= '9') ==> ParseInt(s) == None
    ensures s == "" || s == "+" || s == "-" ==> ParseInt(s) == None
  {
    hide Atoi;
    if 1 <= i < |s| { assert s[1..][i - 1] == s[i]; }
  }

  /** The inputs from the highest to the lowest priority. */
  predicate IsPriorityOrder(inputs: map<string, TypedValue>, keys: seq<string>) {
    && Distinct(keys)
    && (forall i | 0 <= i < |keys| :: keys[i] in inputs)
    && (forall k | k in inputs :: k in keys)
    && (forall i, j | 0 <= i < j < |keys| :: Priority(inputs[keys[i]]) >= Priority(inputs[keys[j]]))
  }

  method Prioritize(inputs: map<string, TypedValue>) returns (keys: seq<string>)
    ensures IsPriorityOrder(inputs, keys)
  {
    keys := [];
    var todo := inputs.Keys;
    while todo != {}
      invariant todo <= inputs.Keys && Distinct(keys)
      invariant forall i | 0 <= i < |keys| :: keys[i] in inputs && keys[i] !in todo
      invariant forall k | k in inputs :: k in keys || k in todo
      invariant forall i, j | 0 <= i < j < |keys| :: Priority(inputs[keys[i]]) >= Priority(inputs[keys[j]])
      invariant forall i, k | 0 <= i < |keys| && k in todo :: Priority(inputs[keys[i]]) >= Priority(inputs[k])
      decreases todo
    {
      HighestExists(inputs, todo);
      var k :| k in todo && forall x | x in todo :: Priority(inputs[x]) <= Priority(inputs[k]);
      keys := keys + [k];
      todo := todo - {k};
    }
  }

  lemma {:induction false} HighestExists(inputs: map<string, TypedValue>, todo: set<string>)
    requires todo != {} && todo <= inputs.Keys
    ensures exists k :: k in todo && forall x | x in todo :: Priority(inputs[x]) <= Priority(inputs[k])
    decreases todo
  {
    var a :| a in todo;
    if todo != {a} {
      HighestExists(inputs, todo - {a});
      var b :| b in todo - {a} && forall x | x in todo - {a} :: Priority(inputs[x]) <= Priority(inputs[b]);
      var k := if Priority(inputs[a]) >= Priority(inputs[b]) then a else b;
      assert forall x | x in todo :: Priority(inputs[x]) <= Priority(inputs[k]);
    }
  }

  ghost predicate Prioritizes(rt: Runtime) {
    forall task, inputs :: IsPriorityOrder(inputs, rt.order(task, inputs))
  }

  /** An input of strictly highest priority comes first. */
  lemma LeaderIsFirst(inputs: map<string, TypedValue>, keys: seq<string>, k: string)
    requires IsPriorityOrder(inputs, keys) && k in inputs
    requires forall x | x in inputs && x != k :: Priority(inputs[x]) < Priority(inputs[k])
    ensures keys != [] && keys[0] == k
  {
    var i :| 0 <= i < |keys| && keys[i] == k;
    assert i > 0 ==> Priority(inputs[keys[0]]) >= Priority(inputs[keys[i]]);
  }

  lemma FirstTwoDiffer(keys: seq<string>)
    requires Distinct(keys) && |keys| > 1
    ensures keys[0] != keys[1]
  {
  }

  lemma OnlyInput(inputs: map<string, TypedValue>, keys: seq<string>, k: string)
    requires IsPriorityOrder(inputs, keys) && inputs.Keys == {k}
    ensures keys == [k]
  {
    assert k in inputs && k in keys;
    assert forall i | 0 <= i < |keys| :: keys[i] == k;
    if |keys| > 1 { FirstTwoDiffer(keys); }
  }

  // ---------- Resolving inputs ----------

  /** Resolves the expressions in a Go value. */
  function ResolveGo(rt: Runtime, v: GoValue, scope: Scope): (r: GoValue)
    requires Supported(v)
    ensures Supported(r)
  {
    match v
    case GoString(s) =>
      if IsExpression(s) then UnwrapIsSupported(rt.eval(s, scope)); Unwrap(rt.eval(s, scope)) else v
    case GoList(vs) => GoList(seq(|vs|, i requires 0 <= i < |vs| => ResolveGo(rt, vs[i], scope)))
    case GoMap(m) => GoMap(map k | k in m :: ResolveGo(rt, m[k], scope))
    case _ => v
  }

  lemma UnwrapIsSupported(tv: TypedValue)
    ensures Supported(Unwrap(tv))
  {
    RoundTripTypedValue(tv);
    WrapSupported(Unwrap(tv));
  }

  /** Where a value is inside another. */
  datatype Step = Field(key: string) | Index(i: nat)

  function At(v: GoValue, path: seq<Step>): Option<GoValue> {
    if path == [] then Some(v) else
    match path[0]
    case Field(k) => if v.GoMap? && k in v.fields then At(v.fields[k], path[1..]) else None
    case Index(i) => if v.GoList? && i < |v.items| then At(v.items[i], path[1..]) else None
  }

  /** Resolving a value resolves every expression in it, at any depth, and changes nothing else: no key, no element and no
      other leaf. */
  lemma {:induction false} ResolvesEveryLeaf(rt: Runtime, v: GoValue, scope: Scope, path: seq<Step>)
    requires Supported(v) && At(v, path).Some?
    ensures At(ResolveGo(rt, v, scope), path).Some?
    ensures var leaf, r := At(v, path).value, At(ResolveGo(rt, v, scope), path).value;
      match leaf
      case GoMap(m) => r.GoMap? && r.fields.Keys == m.Keys
      case GoList(vs) => r.GoList? && |r.items| == |vs|
      case GoString(s) => r == if IsExpression(s) then Unwrap(rt.eval(s, scope)) else leaf
      case _ => r == leaf
    decreases |path|
  {
    if path != [] {
      match path[0]
      case Field(k) => ResolvesEveryLeaf(rt, v.fields[k], scope, path[1..]);
      case Index(i) => ResolvesEveryLeaf(rt, v.items[i], scope, path[1..]);
    }
  }

  /** No string at any depth is an expression. */
  predicate NoExpression(v: GoValue) {
    match v
    case GoMap(m) => forall k | k in m :: NoExpression(m[k])
    case GoList(vs) => forall i | 0 <= i < |vs| :: NoExpression(vs[i])
    case GoString(s) => !IsExpression(s)
    case _ => true
  }

  lemma {:induction false} NothingToResolve(rt: Runtime, v: GoValue, scope: Scope)
    requires Supported(v) && NoExpression(v)
    ensures ResolveGo(rt, v, scope) == v
  {
    match v
    case GoMap(m) =>
      forall k | k in m ensures ResolveGo(rt, m[k], scope) == m[k] { NothingToResolve(rt, m[k], scope); }
      assert ResolveGo(rt, v, scope).fields == m;
    case GoList(vs) =>
      forall i | 0 <= i < |vs| ensures ResolveGo(rt, vs[i], scope) == vs[i] { NothingToResolve(rt, vs[i], scope); }
      assert ResolveGo(rt, v, scope).items == vs;
    case _ =>
  }

  /** A value without expressions is the same to a reader after it has been resolved. */
  lemma ResolvedUnchanged(rt: Runtime, tv: TypedValue, scope: Scope)
    requires NoExpression(Unwrap(tv)) && !tv.value.Expression?
    ensures Unwrap(Resolve(rt, tv, scope)) == Unwrap(tv)
  {
    UnwrapIsSupported(tv);
    NothingToResolve(rt, Unwrap(tv), scope);
    UnwrapTwice(tv);
  }

  /** A value after a detour through its Go representation. */
  function Rewrap(tv: TypedValue): TypedValue {
    RoundTripTypedValue(tv);
    Wrap(Unwrap(tv)).value
  }

  /** Resolves the expressions in a value; lists and maps are resolved as Go values. */
  function Resolve(rt: Runtime, tv: TypedValue, scope: Scope): TypedValue {
    match tv.value
    case Expression(e) => rt.eval(e, scope)
    case ArrayValue(_) => ResolveNested(rt, tv, scope)
    case MapValue(_) => ResolveNested(rt, tv, scope)
    case _ => tv
  }

  function ResolveNested(rt: Runtime, tv: TypedValue, scope: Scope): TypedValue {
    UnwrapIsSupported(tv);
    WrapSupported(ResolveGo(rt, Unwrap(tv), scope));
    Wrap(ResolveGo(rt, Unwrap(tv), scope)).value
  }

  /** The scope of a task while its inputs are resolved: those in `done` as they were resolved, the others as they are
      written. */
  function ScopeOf(task: Id, inputs: map<string, TypedValue>, done: map<string, TypedValue>, env: Outputs): Scope {
    Scope(task, map k | k in inputs :: Unwrap(if k in done then done[k] else inputs[k]), env)
  }

  /** Resolves the inputs one by one, each in sight of those before it. An input in `given` is replaced by the value
      given for it. */
  function ResolveFrom(rt: Runtime, task: Id, inputs: map<string, TypedValue>, env: Outputs,
                       given: map<string, TypedValue>, done: map<string, TypedValue>, keys: seq<string>)
    : map<string, TypedValue>
    decreases |keys|
  {
    if keys == [] then done
    else if keys[0] !in inputs then ResolveFrom(rt, task, inputs, env, given, done, keys[1..]) else
    var k := keys[0];
    var tv := if k in given then given[k] else Resolve(rt, inputs[k], ScopeOf(task, inputs, done, env));
    ResolveFrom(rt, task, inputs, env, given, done[k := tv], keys[1..])
  }

  /** The inputs of a task, resolved in the order of their priorities. */
  function ResolveInputs(rt: Runtime, task: Id, inputs: map<string, TypedValue>, env: Outputs,
                         given: map<string, TypedValue> := map[])
    : map<string, TypedValue>
  {
    ResolveFrom(rt, task, inputs, env, given, map[], rt.order(task, inputs))
  }

  /** The first i inputs are resolved and in the scope, and the others will be. */
  ghost predicate Halfway(rt: Runtime, task: Id, inputs: map<string, TypedValue>, env: Outputs, keys: seq<string>,
                          i: nat, resolved: map<string, TypedValue>, scope: Scope)
  {
    && i <= |keys| && scope == ScopeOf(task, inputs, resolved, env)
    && ResolveFrom(rt, task, inputs, env, map[], resolved, keys[i..]) ==
         ResolveFrom(rt, task, inputs, env, map[], map[], keys)
  }

  lemma NoneResolved(rt: Runtime, task: Id, inputs: map<string, TypedValue>, env: Outputs, keys: seq<string>)
    ensures Halfway(rt, task, inputs, env, keys, 0, map[], Scope(task, map k | k in inputs :: Unwrap(inputs[k]), env))
  {
    assert keys[0..] == keys;
  }

  lemma OneMoreResolved(rt: Runtime, task: Id, inputs: map<string, TypedValue>, env: Outputs, keys: seq<string>,
                        i: nat, resolved: map<string, TypedValue>, scope: Scope)
    requires Halfway(rt, task, inputs, env, keys, i, resolved, scope) && i < |keys| && keys[i] in inputs
    ensures var tv := Resolve(rt, inputs[keys[i]], scope);
      Halfway(rt, task, inputs, env, keys, i + 1, resolved[keys[i] := tv],
              scope.(own := scope.own[keys[i] := Unwrap(tv)]))
  {
    var tv := Resolve(rt, inputs[keys[i]], scope);
    assert keys[i..][1..] == keys[i + 1..];
    assert ScopeOf(task, inputs, resolved[keys[i] := tv], env).own == scope.own[keys[i] := Unwrap(tv)];
  }

  /** Resolves the inputs, keeping the scope up to date. */
  method ResolveEach(rt: Runtime, task: Id, inputs: map<string, TypedValue>, env: Outputs, keys: seq<string>)
    returns (resolved: map<string, TypedValue>)
    requires IsPriorityOrder(inputs, keys)
    ensures resolved == ResolveFrom(rt, task, inputs, env, map[], map[], keys)
  {
    resolved := map[];
    var scope := Scope(task, map k | k in inputs :: Unwrap(inputs[k]), env);
    NoneResolved(rt, task, inputs, env, keys);
    for i := 0 to |keys|
      invariant Halfway(rt, task, inputs, env, keys, i, resolved, scope)
    {
      var tv := Resolve(rt, inputs[keys[i]], scope);
      OneMoreResolved(rt, task, inputs, env, keys, i, resolved, scope);
      resolved := resolved[keys[i] := tv];
      scope := scope.(own := scope.own[keys[i] := Unwrap(tv)]);
    }
  }

  /** What was resolved stays, and every input gets resolved. */
  lemma {:induction false} ResolvedKeys(rt: Runtime, task: Id, inputs: map<string, TypedValue>, env: Outputs,
                                        given: map<string, TypedValue>, done: map<string, TypedValue>,
                                        keys: seq<string>, x: string)
    requires forall i | 0 <= i < |keys| :: keys[i] in inputs
    ensures x in ResolveFrom(rt, task, inputs, env, given, done, keys) <==> x in done || x in keys
    ensures x in done && x !in keys ==> ResolveFrom(rt, task, inputs, env, given, done, keys)[x] == done[x]
    decreases |keys|
  {
    if keys != [] {
      var k := keys[0];
      var tv := if k in given then given[k] else Resolve(rt, inputs[k], ScopeOf(task, inputs, done, env));
      ResolvedKeys(rt, task, inputs, env, given, done[k := tv], keys[1..], x);
      assert keys == [k] + keys[1..];
    }
  }

  /** An input whose value does not depend on the scope resolves to that value. */
  lemma {:induction false} ResolvedAs(rt: Runtime, task: Id, inputs: map<string, TypedValue>, env: Outputs,
                                      given: map<string, TypedValue>, done: map<string, TypedValue>, keys: seq<string>,
                                      k: string, tv: TypedValue)
    requires (forall i | 0 <= i < |keys| :: keys[i] in inputs) && k in keys && k !in given
    requires forall own :: Resolve(rt, inputs[k], Scope(task, own, env)) == tv
    ensures k in ResolveFrom(rt, task, inputs, env, given, done, keys)
    ensures ResolveFrom(rt, task, inputs, env, given, done, keys)[k] == tv
    decreases |keys|
  {
    var x := keys[0];
    var v := if x in given then given[x] else Resolve(rt, inputs[x], ScopeOf(task, inputs, done, env));
    if k in keys[1..] {
      ResolvedAs(rt, task, inputs, env, given, done[x := v], keys[1..], k, tv);
    } else {
      assert keys == [x] + keys[1..];
      ResolvedKeys(rt, task, inputs, env, given, done[x := v], keys[1..], k);
    }
  }

  /** A single input sees nothing but itself. */
  lemma ResolveOnly(rt: Runtime, task: Id, inputs: map<string, TypedValue>, env: Outputs, k: string)
    requires Prioritizes(rt) && inputs.Keys == {k}
    ensures k in inputs
    ensures ResolveInputs(rt, task, inputs, env) == map[k := Resolve(rt, inputs[k], ScopeOf(task, inputs, map[], env))]
  {
    var keys := rt.order(task, inputs);
    assert IsPriorityOrder(inputs, keys) && k in inputs;
    OnlyInput(inputs, keys, k);
    var tv := Resolve(rt, inputs[k], ScopeOf(task, inputs, map[], env));
    assert keys[1..] == [] && map[][k := tv] == map[k := tv];
    assert ResolveFrom(rt, task, inputs, env, map[], map[k := tv], []) == map[k := tv];
  }

  /** Giving an input the value it has anyway changes nothing. */
  lemma {:induction false} GivenAnyway(rt: Runtime, task: Id, inputs: map<string, TypedValue>, env: Outputs,
                                       done: map<string, TypedValue>, keys: seq<string>, k: string, tv: TypedValue)
    requires (forall i | 0 <= i < |keys| :: keys[i] in inputs) && k in inputs
    requires forall own :: Resolve(rt, inputs[k], Scope(task, own, env)) == tv
    ensures ResolveFrom(rt, task, inputs, env, map[], done, keys) ==
      ResolveFrom(rt, task, inputs, env, map[k := tv], done, keys)
    decreases |keys|
  {
    if keys != [] {
      var x := keys[0];
      var v := Resolve(rt, inputs[x], ScopeOf(task, inputs, done, env));
      GivenAnyway(rt, task, inputs, env, done[x := v], keys[1..], k, tv);
    }
  }

  /** A given input of strictly highest priority is in the scope of all the others. */
  lemma GivenLeads(rt: Runtime, task: Id, inputs: map<string, TypedValue>, env: Outputs, k: string, tv: TypedValue)
    requires Prioritizes(rt) && k in inputs
    requires forall x | x in inputs && x != k :: Priority(inputs[x]) < Priority(inputs[k])
    ensures var keys := rt.order(task, inputs);
      && IsPriorityOrder(inputs, keys) && keys != [] && keys[0] == k
      && ResolveInputs(rt, task, inputs, env, map[k := tv]) ==
           ResolveFrom(rt, task, inputs, env, map[], map[k := tv], keys[1..])
  {
    var keys := rt.order(task, inputs);
    assert IsPriorityOrder(inputs, keys);
    LeaderIsFirst(inputs, keys, k);
    assert keys == [k] + keys[1..];
    assert map[][k := tv] == map[k := tv];
    NotGiven(rt, task, inputs, env, k, tv, map[k := tv], keys[1..]);
  }

  /** Every input that is still to be resolved is resolved with a resolved one in its scope. */
  lemma {:induction false} SeesResolved(rt: Runtime, task: Id, inputs: map<string, TypedValue>, env: Outputs,
                                        done: map<string, TypedValue>, keys: seq<string>, k: string, x: string)
    returns (own: map<string, GoValue>)
    requires (forall i | 0 <= i < |keys| :: keys[i] in inputs) && k in inputs && k in done && k !in keys && x in keys
    ensures x in ResolveFrom(rt, task, inputs, env, map[], done, keys) && k in own && own[k] == Unwrap(done[k])
    ensures ResolveFrom(rt, task, inputs, env, map[], done, keys)[x] == Resolve(rt, inputs[x], Scope(task, own, env))
    decreases |keys|
  {
    var y := keys[0];
    var tv := Resolve(rt, inputs[y], ScopeOf(task, inputs, done, env));
    assert y != k && forall z :: z in keys <==> z == y || z in keys[1..] by { assert keys == [y] + keys[1..]; }
    if x in keys[1..] {
      own := SeesResolved(rt, task, inputs, env, done[y := tv], keys[1..], k, x);
    } else {
      own := ScopeOf(task, inputs, done, env).own;
      ResolvedKeys(rt, task, inputs, env, map[], done[y := tv], keys[1..], x);
    }
  }

  /** Every other input is resolved with a given input of strictly highest priority in its scope. */
  lemma SeesLeader(rt: Runtime, task: Id, inputs: map<string, TypedValue>, env: Outputs, k: string, tv: TypedValue, x: string)
    returns (own: map<string, GoValue>)
    requires Prioritizes(rt) && k in inputs && x in inputs && x != k
    requires forall y | y in inputs && y != k :: Priority(inputs[y]) < Priority(inputs[k])
    ensures var resolved := ResolveInputs(rt, task, inputs, env, map[k := tv]);
      && k in resolved && resolved[k] == tv
      && x in resolved && resolved[x] == Resolve(rt, inputs[x], Scope(task, own, env))
      && k in own && own[k] == Unwrap(tv)
  {
    hide ResolveFrom, Resolve, Priority;
    GivenLeads(rt, task, inputs, env, k, tv);
    var keys := rt.order(task, inputs);
    assert keys == [k] + keys[1..] && k !in keys[1..];
    assert x in keys && x in keys[1..];
    own := SeesResolved(rt, task, inputs, env, map[k := tv], keys[1..], k, x);
    ResolvedKeys(rt, task, inputs, env, map[], map[k := tv], keys[1..], k);
  }

  /** Without given inputs, too, an input of strictly highest priority is resolved first and in sight of all others. */
  lemma SeesFirst(rt: Runtime, task: Id, inputs: map<string, TypedValue>, env: Outputs, k: string, x: string)
    returns (own: map<string, GoValue>)
    requires Prioritizes(rt) && k in inputs && x in inputs && x != k
    requires forall y | y in inputs && y != k :: Priority(inputs[y]) < Priority(inputs[k])
    ensures var resolved := ResolveInputs(rt, task, inputs, env);
      && k in resolved && resolved[k] == Resolve(rt, inputs[k], ScopeOf(task, inputs, map[], env))
      && x in resolved && resolved[x] == Resolve(rt, inputs[x], Scope(task, own, env))
      && k in own && own[k] == Unwrap(resolved[k])
  {
    var keys := rt.order(task, inputs);
    assert IsPriorityOrder(inputs, keys);
    LeaderIsFirst(inputs, keys, k);
    var tv := Resolve(rt, inputs[k], ScopeOf(task, inputs, map[], env));
    assert keys == [k] + keys[1..] && k !in keys[1..];
    assert x in keys && x in keys[1..];
    own := SeesResolved(rt, task, inputs, env, map[][k := tv], keys[1..], k, x);
    ResolvedKeys(rt, task, inputs, env, map[], map[][k := tv], keys[1..], k);
  }

  lemma {:induction false} NotGiven(rt: Runtime, task: Id, inputs: map<string, TypedValue>, env: Outputs,
                                    k: string, tv: TypedValue, done: map<string, TypedValue>, keys: seq<string>)
    requires (forall i | 0 <= i < |keys| :: keys[i] in inputs) && k !in keys
    ensures ResolveFrom(rt, task, inputs, env, map[k := tv], done, keys) ==
      ResolveFrom(rt, task, inputs, env, map[], done, keys)
    decreases |keys|
  {
    if keys != [] {
      var x := keys[0];
      assert x != k;
      var v := Resolve(rt, inputs[x], ScopeOf(task, inputs, done, env));
      NotGiven(rt, task, inputs, env, k, tv, done[x := v], keys[1..]);
    }
  }

  // ---------- The order of equal priorities ----------

  ghost predicate AgreeAbove(inputs: map<string, TypedValue>, k: string, own: map<string, GoValue>, own': map<string, GoValue>)
    requires k in inputs
  {
    forall x | x in inputs && Priority(inputs[x]) > Priority(inputs[k]) :: x in own && x in own' && own[x] == own'[x]
  }

  /** An input reads other inputs of its task only if they have a higher priority. */
  ghost predicate ReadsHigher(rt: Runtime, task: Id, inputs: map<string, TypedValue>, env: Outputs, k: string)
    requires k in inputs
  {
    forall own, own' {:trigger AgreeAbove(inputs, k, own, own')} | AgreeAbove(inputs, k, own, own') ::
      Resolve(rt, inputs[k], Scope(task, own, env)) == Resolve(rt, inputs[k], Scope(task, own', env))
  }

  ghost predicate AllReadHigher(rt: Runtime, task: Id, inputs: map<string, TypedValue>, env: Outputs) {
    forall k {:trigger ReadsHigher(rt, task, inputs, env, k)} | k in inputs :: ReadsHigher(rt, task, inputs, env, k)
  }

  /** An input is resolved in a scope that shows what came before it as it was resolved. */
  lemma {:induction false} ResolvedIn(rt: Runtime, task: Id, inputs: map<string, TypedValue>, env: Outputs,
                                      done: map<string, TypedValue>, keys: seq<string>, i: nat)
    returns (own: map<string, GoValue>)
    requires (forall j | 0 <= j < |keys| :: keys[j] in inputs && keys[j] !in done) && Distinct(keys) && i < |keys|
    ensures var r := ResolveFrom(rt, task, inputs, env, map[], done, keys);
      && keys[i] in r && r[keys[i]] == Resolve(rt, inputs[keys[i]], Scope(task, own, env))
      && forall z | z in inputs && (z in done || z in keys[..i]) :: z in r && z in own && own[z] == Unwrap(r[z])
    decreases |keys|
  {
    var y := keys[0];
    var tv := Resolve(rt, inputs[y], ScopeOf(task, inputs, done, env));
    assert keys == [y] + keys[1..] && y !in keys[1..];
    if i == 0 {
      own := ScopeOf(task, inputs, done, env).own;
      ResolvedKeys(rt, task, inputs, env, map[], done[y := tv], keys[1..], y);
      forall z | z in done ensures z in ResolveFrom(rt, task, inputs, env, map[], done, keys) {
        ResolvedKeys(rt, task, inputs, env, map[], done, keys, z);
      }
      forall z | z in done ensures ResolveFrom(rt, task, inputs, env, map[], done, keys)[z] == done[z] {
        ResolvedKeys(rt, task, inputs, env, map[], done, keys, z);
      }
    } else {
      own := ResolvedIn(rt, task, inputs, env, done[y := tv], keys[1..], i - 1);
      assert keys[..i] == [y] + keys[1..][..i - 1];
    }
  }

  /** What has a higher priority comes before. */
  lemma HigherIsBefore(inputs: map<string, TypedValue>, keys: seq<string>, i: nat, z: string)
    requires IsPriorityOrder(inputs, keys) && i < |keys| && z in inputs
    requires Priority(inputs[z]) > Priority(inputs[keys[i]])
    ensures z in keys[..i]
  {
    var j :| 0 <= j < |keys| && keys[j] == z;
    assert j < i;
    assert keys[..i][j] == z;
  }

  ghost predicate ShowsAbove(inputs: map<string, TypedValue>, k: string, own: map<string, GoValue>, r: map<string, TypedValue>)
    requires k in inputs
  {
    forall z | z in inputs && Priority(inputs[z]) > Priority(inputs[k]) :: z in r && z in own && own[z] == Unwrap(r[z])
  }

  /** An input has the value that it has in sight of the inputs of higher priority. */
  ghost predicate ValueInSight(rt: Runtime, task: Id, inputs: map<string, TypedValue>, env: Outputs,
                               r: map<string, TypedValue>, k: string)
    requires k in inputs
  {
    k in r && exists own :: ShowsAbove(inputs, k, own, r) && r[k] == Resolve(rt, inputs[k], Scope(task, own, env))
  }

  ghost predicate AllInSight(rt: Runtime, task: Id, inputs: map<string, TypedValue>, env: Outputs, r: map<string, TypedValue>) {
    forall k {:trigger ValueInSight(rt, task, inputs, env, r, k)} | k in inputs ::
      ValueInSight(rt, task, inputs, env, r, k)
  }

  lemma ValuesInSight(rt: Runtime, task: Id, inputs: map<string, TypedValue>, env: Outputs, keys: seq<string>, k: string)
    requires IsPriorityOrder(inputs, keys) && k in inputs
    ensures ValueInSight(rt, task, inputs, env, ResolveFrom(rt, task, inputs, env, map[], map[], keys), k)
  {
    var r := ResolveFrom(rt, task, inputs, env, map[], map[], keys);
    var i :| 0 <= i < |keys| && keys[i] == k;
    var own := ResolvedIn(rt, task, inputs, env, map[], keys, i);
    forall z | z in inputs && Priority(inputs[z]) > Priority(inputs[k]) ensures z in r && z in own && own[z] == Unwrap(r[z]) {
      HigherIsBefore(inputs, keys, i, z);
    }
    assert ShowsAbove(inputs, k, own, r);
  }

  lemma AllAreInSight(rt: Runtime, task: Id, inputs: map<string, TypedValue>, env: Outputs, keys: seq<string>)
    requires IsPriorityOrder(inputs, keys)
    ensures AllInSight(rt, task, inputs, env, ResolveFrom(rt, task, inputs, env, map[], map[], keys))
  {
    forall k | k in inputs
      ensures ValueInSight(rt, task, inputs, env, ResolveFrom(rt, task, inputs, env, map[], map[], keys), k)
    {
      ValuesInSight(rt, task, inputs, env, keys, k);
    }
  }

  /** Such values are unique. */
  lemma {:induction false} SameInBoth(rt: Runtime, task: Id, inputs: map<string, TypedValue>, env: Outputs,
                                      keys: seq<string>, r: map<string, TypedValue>, r': map<string, TypedValue>, i: nat)
    requires IsPriorityOrder(inputs, keys) && i < |keys|
    requires AllReadHigher(rt, task, inputs, env)
    requires AllInSight(rt, task, inputs, env, r) && AllInSight(rt, task, inputs, env, r')
    ensures keys[i] in r && keys[i] in r' && r[keys[i]] == r'[keys[i]]
    decreases i
  {
    var x := keys[i];
    assert ValueInSight(rt, task, inputs, env, r, x) && ValueInSight(rt, task, inputs, env, r', x);
    assert ReadsHigher(rt, task, inputs, env, x);
    var own :| ShowsAbove(inputs, x, own, r) && r[x] == Resolve(rt, inputs[x], Scope(task, own, env));
    var own' :| ShowsAbove(inputs, x, own', r') && r'[x] == Resolve(rt, inputs[x], Scope(task, own', env));
    forall z | z in inputs && Priority(inputs[z]) > Priority(inputs[x])
      ensures z in own && z in own' && own[z] == own'[z]
    {
      HigherIsBefore(inputs, keys, i, z);
      var j :| 0 <= j < i && keys[..i][j] == z;
      SameInBoth(rt, task, inputs, env, keys, r, r', j);
    }
    assert AgreeAbove(inputs, x, own, own');
  }

  /** Where inputs read only inputs of higher priority, it does not matter how the sort orders equal priorities. */
  lemma PriorityOrdersAgree(rt: Runtime, task: Id, inputs: map<string, TypedValue>, env: Outputs,
                            keys: seq<string>, keys': seq<string>)
    requires IsPriorityOrder(inputs, keys) && IsPriorityOrder(inputs, keys')
    requires AllReadHigher(rt, task, inputs, env)
    ensures ResolveFrom(rt, task, inputs, env, map[], map[], keys) == ResolveFrom(rt, task, inputs, env, map[], map[], keys')
  {
    var r := ResolveFrom(rt, task, inputs, env, map[], map[], keys);
    var r' := ResolveFrom(rt, task, inputs, env, map[], map[], keys');
    forall x ensures x in r <==> x in r' {
      ResolvedKeys(rt, task, inputs, env, map[], map[], keys, x);
      ResolvedKeys(rt, task, inputs, env, map[], map[], keys', x);
    }
    AllAreInSight(rt, task, inputs, env, keys);
    AllAreInSight(rt, task, inputs, env, keys');
    forall x | x in r ensures r[x] == r'[x] {
      ResolvedKeys(rt, task, inputs, env, map[], map[], keys, x);
      var i :| 0 <= i < |keys| && keys[i] == x;
      SameInBoth(rt, task, inputs, env, keys, r, r', i);
    }
  }

  // ---------- Inputs that do not depend on other tasks ----------

  /** An input that does not depend on the outputs of the workflow it is in; it may read the other inputs of its task. */
  ghost predicate Local(rt: Runtime, tv: TypedValue) {
    forall scope: Scope, env :: Resolve(rt, tv, scope) == Resolve(rt, tv, scope.(outputs := env))
  }

  ghost predicate LocalInputs(rt: Runtime, inputs: map<string, TypedValue>) {
    forall k | k in inputs :: Local(rt, inputs[k])
  }

  lemma {:induction false} LocalResolve(rt: Runtime, task: Id, inputs: map<string, TypedValue>, env: Outputs, env': Outputs,
                                        given: map<string, TypedValue>, done: map<string, TypedValue>, keys: seq<string>)
    requires forall i | 0 <= i < |keys| :: keys[i] in inputs
    requires forall k | k in inputs && k !in given :: Local(rt, inputs[k])
    ensures ResolveFrom(rt, task, inputs, env, given, done, keys) == ResolveFrom(rt, task, inputs, env', given, done, keys)
    decreases |keys|
  {
    if keys != [] {
      var k := keys[0];
      var scope := ScopeOf(task, inputs, done, env);
      if k !in given {
        assert Local(rt, inputs[k]);
        assert scope.(outputs := env') == ScopeOf(task, inputs, done, env');
      }
      var tv := if k in given then given[k] else Resolve(rt, inputs[k], scope);
      LocalResolve(rt, task, inputs, env, env', given, done[k := tv], keys[1..]);
    }
  }
}
