/**
 Slots stand for scopes: the flat list of declared locals, with the values in
 their stack slots, represents the tree-walker's scope chain.
 */
module Slots {
  import opened Values
  import opened ScopeChains
  import opened TreeWalker
  import opened CodeGen
  import Patterns

  /** How many locals remain once those declared at `depth` are dropped from the end (`end_scope`). */
  function Outer(locals: seq<Local>, depth: nat): (n: nat)
    ensures n <= |locals|
    ensures forall k :: n <= k < |locals| ==> locals[k].depth == depth
    ensures n > 0 ==> locals[n - 1].depth != depth
  {
    if locals != [] && locals[|locals| - 1].depth == depth
    then Outer(locals[..|locals| - 1], depth)
    else |locals|
  }

  lemma {:induction false} OuterUnique(locals: seq<Local>, depth: nat, n: nat)
    requires n <= |locals|
    requires forall k :: n <= k < |locals| ==> locals[k].depth == depth
    requires n > 0 ==> locals[n - 1].depth != depth
    ensures Outer(locals, depth) == n
  {
    if n < |locals| {
      OuterUnique(locals[..|locals| - 1], depth, n);
    }
  }

  // ----- frames in the list of locals -----

  /** A local of the frame being built at `depth`; what is being matched belongs to no frame. */
  predicate InFrame(l: Local, depth: nat) {
    l.depth == depth && l.name != SCRUTINEE
  }

  /** Where the innermost frame's locals start. */
  function Inner(locals: seq<Local>, depth: nat): (k: nat)
    ensures k <= |locals|
    ensures forall i :: k <= i < |locals| ==> InFrame(locals[i], depth)
    ensures k > 0 ==> !InFrame(locals[k - 1], depth)
  {
    if locals != [] && InFrame(locals[|locals| - 1], depth) then Inner(locals[..|locals| - 1], depth) else |locals|
  }

  /** The frame is an arm's: what is matched lies under its locals, at the same depth. */
  predicate OfArm(locals: seq<Local>, depth: nat) {
    var k := Inner(locals, depth);
    k > 0 && locals[k - 1].depth == depth
  }

  /** How many locals the frames around the innermost one have, and the depth they are at. */
  function Enclosing(locals: seq<Local>, depth: nat): (j: nat)
    ensures j <= Inner(locals, depth) <= |locals|
  {
    if OfArm(locals, depth) then Inner(locals, depth) - 1 else Inner(locals, depth)
  }

  function EnclosingDepth(locals: seq<Local>, depth: nat): (d: nat)
    ensures d <= depth
  {
    if OfArm(locals, depth) || depth == 0 then depth else depth - 1
  }

  lemma {:induction false} InnerUnique(locals: seq<Local>, depth: nat, k: nat)
    requires k <= |locals|
    requires forall i :: k <= i < |locals| ==> InFrame(locals[i], depth)
    requires k > 0 ==> !InFrame(locals[k - 1], depth)
    ensures Inner(locals, depth) == k
  {
    if k < |locals| {
      InnerUnique(locals[..|locals| - 1], depth, k);
    }
  }

  /** The innermost frame starts at `k`, those around it have `j` locals at depth `d`. */
  predicate Splits(locals: seq<Local>, depth: nat, k: nat, j: nat, d: nat) {
    && k == Inner(locals, depth) && j == Enclosing(locals, depth) && d == EnclosingDepth(locals, depth)
    && (OfArm(locals, depth) || depth > 0)
  }

  lemma SplitsInside(locals: seq<Local>, depth: nat, k: nat, j: nat, d: nat)
    requires Splits(locals, depth, k, j, d)
    ensures j <= k <= |locals| && d <= depth
    ensures forall i :: j <= i < k ==> locals[i].name == SCRUTINEE && locals[i].depth == depth
    ensures forall i :: k <= i < |locals| ==> InFrame(locals[i], depth)
  {
  }

  /** The frame a run of declarations builds: a later declaration hides an earlier one. */
  function FrameOf(locals: seq<Local>, vals: seq<Value>): Frame
    requires |locals| == |vals|
  {
    if locals == [] then map[]
    else
      var n := |locals| - 1;
      FrameOf(locals[..n], vals[..n])[locals[n].name := vals[n]]
  }

  /** The locals and their values represent `env`; the first frame of `env` is the globals. */
  predicate Represents(env: Env, locals: seq<Local>, depth: nat, vals: seq<Value>)
    decreases |env|
  {
    && env != []
    && |vals| == |locals|
    && if |env| == 1 then locals == [] && depth == 0
       else
         var top := |env| - 1;
         var k, j := Inner(locals, depth), Enclosing(locals, depth);
         && (OfArm(locals, depth) || depth > 0)
         && env[top] == FrameOf(locals[k..], vals[k..])
         && Represents(env[..top], locals[..j], EnclosingDepth(locals, depth), vals[..j])
  }

  lemma SameLength(env: Env, locals: seq<Local>, depth: nat, vals: seq<Value>)
    requires Represents(env, locals, depth, vals)
    ensures env != [] && |vals| == |locals|
    ensures |env| == 1 ==> locals == [] && depth == 0
  {
  }

  /** The innermost frame and the rest of what is represented. */
  lemma LayerOf(env: Env, locals: seq<Local>, depth: nat, vals: seq<Value>) returns (k: nat, j: nat, d: nat)
    requires Represents(env, locals, depth, vals) && |env| > 1
    ensures |vals| == |locals| && Splits(locals, depth, k, j, d) && j <= k <= |locals| && d <= depth
    ensures env[|env| - 1] == FrameOf(locals[k..], vals[k..])
    ensures Represents(env[..|env| - 1], locals[..j], d, vals[..j])
  {
    k, j, d := Inner(locals, depth), Enclosing(locals, depth), EnclosingDepth(locals, depth);
    hide FrameOf, Inner;
  }

  /** The same locals under a changed scope chain. */
  lemma LayerAgain(env: Env, locals: seq<Local>, depth: nat, vals: seq<Value>, k: nat, j: nat, d: nat)
    requires |env| > 1 && |vals| == |locals| && Splits(locals, depth, k, j, d) && j <= k <= |locals|
    requires env[|env| - 1] == FrameOf(locals[k..], vals[k..])
    requires Represents(env[..|env| - 1], locals[..j], d, vals[..j])
    ensures Represents(env, locals, depth, vals)
  {
    hide FrameOf, Inner;
  }

  lemma {:induction false} DepthsBounded(env: Env, locals: seq<Local>, depth: nat, vals: seq<Value>)
    requires Represents(env, locals, depth, vals)
    ensures forall i :: 0 <= i < |locals| ==> locals[i].depth <= depth
    decreases |env|
  {
    if |env| > 1 {
      var k, j, d := LayerOf(env, locals, depth, vals);
      DepthsBounded(env[..|env| - 1], locals[..j], d, vals[..j]);
      SplitsInside(locals, depth, k, j, d);
      hide Represents, Splits;
      forall i | 0 <= i < |locals|
        ensures locals[i].depth <= depth
      {
        if i < j {
          assert locals[..j][i] == locals[i];
        }
      }
    }
  }

  // ----- looking names up -----

  lemma {:induction false} FrameLookup(locals: seq<Local>, vals: seq<Value>, depth: nat, x: string)
    requires |locals| == |vals|
    requires forall k :: 0 <= k < |locals| ==> locals[k].depth <= depth
    ensures match Resolve(locals, depth, x)
            case Some(i) => x in FrameOf(locals, vals) && FrameOf(locals, vals)[x] == vals[i]
            case None => x !in FrameOf(locals, vals)
  {
    if locals != [] {
      var n := |locals| - 1;
      FrameLookup(locals[..n], vals[..n], depth, x);
    }
  }

  lemma ResolveStep(locals: seq<Local>, depth: nat, x: string)
    requires locals != []
    ensures var n := |locals| - 1;
            Resolve(locals, depth, x) ==
              if locals[n].name == x && locals[n].depth <= depth then Some(n) else Resolve(locals[..n], depth, x)
  {
  }

  lemma ResolveNothing(depth: nat, x: string)
    ensures Resolve([], depth, x).None?
  {
  }

  /** Resolution looks through the last declarations first. */
  lemma {:induction false} ResolveSplit(locals: seq<Local>, k: nat, depth: nat, x: string)
    requires k <= |locals|
    ensures Resolve(locals, depth, x) ==
              match Resolve(locals[k..], depth, x)
              case Some(i) => Some(k + i)
              case None => Resolve(locals[..k], depth, x)
    decreases |locals|
  {
    hide *;
    if k == |locals| {
      assert locals[..k] == locals && locals[k..] == [];
      ResolveNothing(depth, x);
    } else {
      var n := |locals| - 1;
      ResolveStep(locals, depth, x);
      ResolveStep(locals[k..], depth, x);
      assert locals[..n][k..] == locals[k..][..n - k];
      assert locals[..n][..k] == locals[..k];
      ResolveSplit(locals[..n], k, depth, x);
    }
  }

  /** What is being matched is nobody's variable. */
  lemma ResolveInner(locals: seq<Local>, k: nat, j: nat, depth: nat, x: string)
    requires j <= k <= |locals| && x != SCRUTINEE
    requires forall i :: j <= i < k ==> locals[i].name == SCRUTINEE
    ensures Resolve(locals, depth, x) ==
              match Resolve(locals[k..], depth, x)
              case Some(i) => Some(k + i)
              case None => Resolve(locals[..j], depth, x)
  {
    hide *;
    ResolveSplit(locals, k, depth, x);
    assert locals[..k][..j] == locals[..j];
    ResolveSkips(locals[..k], j, depth, x);
  }

  lemma {:induction false} ResolveSkips(locals: seq<Local>, j: nat, depth: nat, x: string)
    requires j <= |locals| && x != SCRUTINEE
    requires forall i :: j <= i < |locals| ==> locals[i].name == SCRUTINEE
    ensures Resolve(locals, depth, x) == Resolve(locals[..j], depth, x)
    decreases |locals|
  {
    if j < |locals| {
      ResolveStep(locals, depth, x);
      var shorter := locals[..|locals| - 1];
      assert shorter[..j] == locals[..j];
      ResolveSkips(shorter, j, depth, x);
    } else {
      assert locals[..j] == locals;
    }
  }

  /** A slot found by the compiler holds what the scope chain yields, and no slot means a global. */
  lemma {:induction false} LookupAgrees(env: Env, locals: seq<Local>, depth: nat, vals: seq<Value>, at: nat, x: string)
    requires Represents(env, locals, depth, vals) && depth <= at && x != SCRUTINEE
    ensures match Resolve(locals, at, x)
            case Some(i) => i < |vals| && Get(env, x) == Some(vals[i])
            case None => env != [] && Get(env, x) == (if x in env[0] then Some(env[0][x]) else None)
    decreases |env|
  {
    DepthsBounded(env, locals, depth, vals);
    SameLength(env, locals, depth, vals);
    GetStep(env, x);
    var top := |env| - 1;
    if top == 0 {
      ResolveNothing(at, x);
      hide *;
    } else {
      var k, j, d := LayerOf(env, locals, depth, vals);
      SplitsInside(locals, depth, k, j, d);
      hide *;
      ResolveInner(locals, k, j, at, x);
      FrameLookup(locals[k..], vals[k..], at, x);
      LookupAgrees(env[..top], locals[..j], d, vals[..j], at, x);
    }
  }

  lemma GetStep(env: Env, x: string)
    requires env != []
    ensures var top := |env| - 1;
            Get(env, x) == if x in env[top] then Some(env[top][x]) else Get(env[..top], x)
    ensures |env| == 1 ==> Get(env[..0], x).None?
  {
  }

  // ----- assigning -----

  lemma {:induction false} FrameUpdate(locals: seq<Local>, vals: seq<Value>, depth: nat, x: string, v: Value)
    requires |locals| == |vals|
    requires Resolve(locals, depth, x).Some?
    requires forall k :: 0 <= k < |locals| ==> locals[k].depth <= depth
    ensures FrameOf(locals, vals[Resolve(locals, depth, x).value := v]) == FrameOf(locals, vals)[x := v]
  {
    var n, i := |locals| - 1, Resolve(locals, depth, x).value;
    var vals' := vals[i := v];
    if i == n {
      assert vals'[..n] == vals[..n];
    } else {
      assert vals'[..n] == vals[..n][i := v];
      FrameUpdate(locals[..n], vals[..n], depth, x, v);
    }
  }

  lemma UpdateUnfolds(env: Env, x: string, v: Value)
    requires env != []
    ensures var top := |env| - 1;
            Update(env, x, v) ==
              if x in env[top] then Some(env[top := env[top][x := v]])
              else if Update(env[..top], x, v).Some? then Some(Update(env[..top], x, v).value + [env[top]])
              else None
    ensures |env| == 1 ==> Update(env[..0], x, v).None?
  {
  }

  /** Writing the resolved slot is assigning the innermost binding; no slot leaves the locals alone. */
  lemma {:induction false} AssignAgrees(env: Env, locals: seq<Local>, depth: nat, vals: seq<Value>, at: nat, x: string,
                                        v: Value)
    requires Represents(env, locals, depth, vals) && depth <= at && x != SCRUTINEE
    ensures AssignedSlot(env, locals, depth, vals, at, x, v)
    decreases |env|
  {
    hide *;
    DepthsBounded(env, locals, depth, vals);
    SameLength(env, locals, depth, vals);
    var top := |env| - 1;
    if top == 0 {
      GlobalAssigned(env, locals, depth, vals, at, x, v);
    } else {
      var k, j, d := LayerOf(env, locals, depth, vals);
      SplitsInside(locals, depth, k, j, d);
      ResolveInner(locals, k, j, at, x);
      FrameLookup(locals[k..], vals[k..], at, x);
      AssignAgrees(env[..top], locals[..j], d, vals[..j], at, x, v);
      if Resolve(locals[k..], at, x).Some? {
        InnerAssigned(env, locals, depth, vals, at, x, v, k, j, d, Resolve(locals[k..], at, x).value);
      } else {
        OuterAssigned(env, locals, depth, vals, at, x, v, k, j, d);
      }
    }
  }

  /** There is only the frame of the globals. */
  lemma GlobalAssigned(env: Env, locals: seq<Local>, depth: nat, vals: seq<Value>, at: nat, x: string, v: Value)
    requires Represents(env, locals, depth, vals) && |env| == 1
    ensures AssignedSlot(env, locals, depth, vals, at, x, v)
  {
    SameLength(env, locals, depth, vals);
    UpdateUnfolds(env, x, v);
    ResolveNothing(at, x);
    hide Outer, FrameOf, Resolve, Update;
  }

  /** What assigning `x` does to the scope chain and to the slots. */
  predicate AssignedSlot(env: Env, locals: seq<Local>, depth: nat, vals: seq<Value>, at: nat, x: string, v: Value) {
    && env != [] && |vals| == |locals|
    && match Resolve(locals, at, x)
       case Some(i) =>
         && locals[i].name == x
         && Update(env, x, v).Some?
         && Update(env, x, v).value[0] == env[0]
         && Represents(Update(env, x, v).value, locals, depth, vals[i := v])
       case None =>
         if x in env[0] then
           && Update(env, x, v) == Some(env[0 := env[0][x := v]])
           && Represents(env[0 := env[0][x := v]], locals, depth, vals)
         else
           Update(env, x, v).None?
  }

  /** The variable lives in the innermost frame. */
  lemma InnerAssigned(env: Env, locals: seq<Local>, depth: nat, vals: seq<Value>, at: nat, x: string, v: Value,
                      k: nat, j: nat, d: nat, i: nat)
    requires |env| > 1 && |vals| == |locals| && Splits(locals, depth, k, j, d) && j <= k <= |locals|
    requires env[|env| - 1] == FrameOf(locals[k..], vals[k..])
    requires Represents(env[..|env| - 1], locals[..j], d, vals[..j])
    requires forall n :: 0 <= n < |locals| ==> locals[n].depth <= at
    requires Resolve(locals[k..], at, x) == Some(i) && Resolve(locals, at, x) == Some(k + i) && x in env[|env| - 1]
    ensures AssignedSlot(env, locals, depth, vals, at, x, v)
  {
    var top := |env| - 1;
    var env' := env[top := env[top][x := v]];
    FrameUpdate(locals[k..], vals[k..], at, x, v);
    UpdateUnfolds(env, x, v);
    hide Represents, FrameOf, Resolve, Update, Splits;
    var vals' := vals[k + i := v];
    assert vals'[..j] == vals[..j] && vals'[k..] == vals[k..][i := v];
    assert env'[..top] == env[..top];
    LayerAgain(env', locals, depth, vals', k, j, d);
  }

  /** The variable lives in an enclosing frame, or nowhere. */
  lemma OuterAssigned(env: Env, locals: seq<Local>, depth: nat, vals: seq<Value>, at: nat, x: string, v: Value,
                      k: nat, j: nat, d: nat)
    requires |env| > 1 && |vals| == |locals| && Splits(locals, depth, k, j, d) && j <= k <= |locals|
    requires env[|env| - 1] == FrameOf(locals[k..], vals[k..]) && x !in env[|env| - 1]
    requires Resolve(locals, at, x) == Resolve(locals[..j], at, x)
    requires AssignedSlot(env[..|env| - 1], locals[..j], d, vals[..j], at, x, v)
    ensures AssignedSlot(env, locals, depth, vals, at, x, v)
  {
    UpdateUnfolds(env, x, v);
    hide Represents, FrameOf, Resolve, Update, Splits;
    var top := |env| - 1;
    var r := Resolve(locals[..j], at, x);
    if r.Some? {
      var vals' := vals[r.value := v];
      assert vals'[..j] == vals[..j][r.value := v] && vals'[k..] == vals[k..];
      OuterChanged(env, locals, depth, vals', Update(env[..top], x, v).value, k, j, d);
    } else if x in env[0] {
      OuterChanged(env, locals, depth, vals, Update(env[..top], x, v).value, k, j, d);
      assert env[..top][0 := env[0][x := v]] + [env[top]] == env[0 := env[0][x := v]];
    }
  }

  lemma OuterChanged(env: Env, locals: seq<Local>, depth: nat, vals: seq<Value>, outer: Env, k: nat, j: nat, d: nat)
    requires |env| > 1 && |vals| == |locals| && Splits(locals, depth, k, j, d) && j <= k <= |locals|
    requires env[|env| - 1] == FrameOf(locals[k..], vals[k..])
    requires |outer| == |env| - 1 && Represents(outer, locals[..j], d, vals[..j])
    ensures Represents(outer + [env[|env| - 1]], locals, depth, vals)
  {
    hide *;
    var env' := outer + [env[|env| - 1]];
    assert env'[..|env| - 1] == outer;
    LayerAgain(env', locals, depth, vals, k, j, d);
  }

  // ----- blocks -----

  lemma SplitsAt(locals: seq<Local>, depth: nat, k: nat)
    requires k <= |locals|
    requires forall i :: k <= i < |locals| ==> InFrame(locals[i], depth)
    requires k > 0 ==> !InFrame(locals[k - 1], depth)
    requires depth > 0 || (k > 0 && locals[k - 1].depth == depth)
    ensures if k > 0 && locals[k - 1].depth == depth then Splits(locals, depth, k, k - 1, depth)
            else Splits(locals, depth, k, k, depth - 1)
  {
    InnerUnique(locals, depth, k);
    hide Inner;
  }

  lemma EmptyFrame(vals: seq<Value>)
    requires vals == []
    ensures FrameOf([], vals) == map[]
  {
  }

  /** Entering a block adds an empty frame. */
  lemma EnterBlock(env: Env, locals: seq<Local>, depth: nat, vals: seq<Value>)
    requires Represents(env, locals, depth, vals)
    ensures Represents(env + [map[]], locals, depth + 1, vals)
  {
    DepthsBounded(env, locals, depth, vals);
    SameLength(env, locals, depth, vals);
    SplitsAt(locals, depth + 1, |locals|);
    EmptyFrame(vals[|locals|..]);
    hide *;
    assert (env + [map[]])[..|env|] == env;
    assert locals[..|locals|] == locals && vals[..|vals|] == vals && locals[|locals|..] == [];
    LayerAgain(env + [map[]], locals, depth + 1, vals, |locals|, |locals|, depth);
  }

  lemma FrameDeclare(locals: seq<Local>, vals: seq<Value>, l: Local, v: Value)
    requires |locals| == |vals|
    ensures FrameOf(locals + [l], vals + [v]) == FrameOf(locals, vals)[l.name := v]
  {
    assert (locals + [l])[..|locals|] == locals && (vals + [v])[..|vals|] == vals;
  }

  lemma DefineLayers(env: Env, x: string, v: Value)
    requires |env| > 1
    ensures var d, env' := |env| - 1, Define(env, x, v);
            |env'| == |env| && env'[d] == env[d][x := v] && env'[..d] == env[..d]
  {
  }

  lemma SplitsGrow(locals: seq<Local>, depth: nat, k: nat, j: nat, d: nat, l: Local)
    requires Splits(locals, depth, k, j, d) && InFrame(l, depth)
    ensures Splits(locals + [l], depth, k, j, d)
  {
    var more := locals + [l];
    assert k > 0 ==> more[k - 1] == locals[k - 1];
    InnerUnique(more, depth, k);
  }

  /** A declaration takes the next slot. */
  lemma Declare(env: Env, locals: seq<Local>, depth: nat, vals: seq<Value>, x: string, v: Value)
    requires Represents(env, locals, depth, vals) && |env| > 1 && x != SCRUTINEE
    ensures Represents(Define(env, x, v), locals + [Local(x, depth)], depth, vals + [v])
  {
    hide *;
    var k, j, d := LayerOf(env, locals, depth, vals);
    var locals', vals' := locals + [Local(x, depth)], vals + [v];
    FrameLocal(x, depth);
    SplitsGrow(locals, depth, k, j, d, Local(x, depth));
    DefineLayers(env, x, v);
    FrameDeclare(locals[k..], vals[k..], Local(x, depth), v);
    assert locals'[k..] == locals[k..] + [Local(x, depth)] && vals'[k..] == vals[k..] + [v];
    assert locals'[..j] == locals[..j] && vals'[..j] == vals[..j];
    LayerAgain(Define(env, x, v), locals', depth, vals', k, j, d);
  }

  lemma FrameLocal(x: string, depth: nat)
    requires x != SCRUTINEE
    ensures InFrame(Local(x, depth), depth)
  {
  }

  /** Leaving a block drops its frame and exactly the slots declared in it. */
  lemma LeaveBlock(env: Env, locals: seq<Local>, depth: nat, outer: seq<Local>, vals: seq<Value>)
    requires Represents(env, locals, depth, vals) && depth > 0
    requires outer <= locals
    requires forall k :: |outer| <= k < |locals| ==> InFrame(locals[k], depth)
    requires forall k :: 0 <= k < |outer| ==> outer[k].depth < depth
    ensures |env| > 1 && |outer| <= |vals| && Represents(env[..|env| - 1], outer, depth - 1, vals[..|outer|])
  {
    SameLength(env, locals, depth, vals);
    var n := |outer|;
    assert locals[..n] == outer;
    assert n > 0 ==> locals[n - 1] == outer[n - 1];
    SplitsAt(locals, depth, n);
    var k, j, d := LayerOf(env, locals, depth, vals);
    SplitOnce(locals, depth, k, j, d, n, n, depth - 1);
    hide *;
  }

  lemma SplitOnce(locals: seq<Local>, depth: nat, k: nat, j: nat, d: nat, k1: nat, j1: nat, d1: nat)
    requires Splits(locals, depth, k, j, d) && Splits(locals, depth, k1, j1, d1)
    ensures k == k1 && j == j1 && d == d1
  {
  }

  // ----- match arms -----

  /** The locals of an arm: what is matched, and the names its pattern binds. */
  function ArmLocals(locals: seq<Local>, depth: nat, names: seq<string>): seq<Local> {
    locals + [Local(SCRUTINEE, depth)] + Bound(names, depth)
  }

  lemma ArmSplits(locals: seq<Local>, depth: nat, names: seq<string>)
    requires SCRUTINEE !in names
    ensures var all, n := ArmLocals(locals, depth, names), |locals|;
            && Splits(all, depth, n + 1, n, depth)
            && all[n + 1..] == Bound(names, depth) && all[..n] == locals && |all| == n + 1 + |names|
  {
    var all, n := ArmLocals(locals, depth, names), |locals|;
    forall i | n + 1 <= i < |all|
      ensures InFrame(all[i], depth)
    {
      assert all[i].name in names;
    }
    SplitsAt(all, depth, n + 1);
  }

  /** Entering an arm adds the frame of its bindings. */
  lemma EnterArm(env: Env, locals: seq<Local>, depth: nat, vals: seq<Value>, v: Value, names: seq<string>,
                 bound: seq<Value>)
    requires Represents(env, locals, depth, vals) && SCRUTINEE !in names && |bound| == |names|
    ensures Represents(env + [FrameOf(Bound(names, depth), bound)], ArmLocals(locals, depth, names), depth,
                       vals + [v] + bound)
  {
    SameLength(env, locals, depth, vals);
    ArmSplits(locals, depth, names);
    hide *;
    var n := |locals|;
    var env', vals' := env + [FrameOf(Bound(names, depth), bound)], vals + [v] + bound;
    assert env'[..|env|] == env && vals'[n + 1..] == bound && vals'[..n] == vals;
    LayerAgain(env', ArmLocals(locals, depth, names), depth, vals', n + 1, n, depth);
  }

  /** Leaving an arm drops its frame. */
  lemma LeaveArm(env: Env, locals: seq<Local>, depth: nat, vals: seq<Value>, names: seq<string>)
    requires Represents(env, ArmLocals(locals, depth, names), depth, vals) && SCRUTINEE !in names
    ensures |env| > 1 && |vals| == |locals| + 1 + |names|
    ensures Represents(env[..|env| - 1], locals, depth, vals[..|locals|])
  {
    SameLength(env, ArmLocals(locals, depth, names), depth, vals);
    ArmSplits(locals, depth, names);
    assert |env| > 1 by { assert |ArmLocals(locals, depth, names)| > 0; }
    hide *;
    var k, j, d := LayerOf(env, ArmLocals(locals, depth, names), depth, vals);
    SplitOnce(ArmLocals(locals, depth, names), depth, k, j, d, |locals| + 1, |locals|, depth);
  }

  /** Bindings as locals are the bindings as a frame. */
  lemma {:induction false} BoundFrame(names: seq<string>, vals: seq<Value>, depth: nat)
    requires |names| == |vals|
    ensures FrameOf(Bound(names, depth), vals) == Patterns.BindAll(map[], Patterns.Paired(names, vals))
    decreases |names|
  {
    var bs := Patterns.Paired(names, vals);
    if names == [] {
      assert Bound(names, depth) == [] && bs == [];
    } else {
      var n := |names| - 1;
      BoundFrame(names[..n], vals[..n], depth);
      assert Bound(names, depth) == Bound(names[..n], depth) + [Local(names[n], depth)];
      assert vals == vals[..n] + [vals[n]];
      FrameDeclare(Bound(names[..n], depth), vals[..n], Local(names[n], depth), vals[n]);
      assert bs == Patterns.Paired(names[..n], vals[..n]) + [(names[n], vals[n])];
      Patterns.BindAppend(map[], Patterns.Paired(names[..n], vals[..n]), [(names[n], vals[n])]);
      hide FrameOf;
      BindOne(Patterns.BindAll(map[], Patterns.Paired(names[..n], vals[..n])), names[n], vals[n]);
    }
  }

  lemma BindOne(f: Frame, x: string, v: Value)
    ensures Patterns.BindAll(f, [(x, v)]) == f[x := v]
  {
    assert [(x, v)][1..] == [];
  }

  // ----- what is being matched -----

  /** The values being matched, outermost first. */
  function Hidden(locals: seq<Local>, vals: seq<Value>): seq<Value>
    requires |locals| == |vals|
  {
    if locals == [] then []
    else
      var n := |locals| - 1;
      Hidden(locals[..n], vals[..n]) + if locals[n].name == SCRUTINEE then [vals[n]] else []
  }

  /** Variables are not what is being matched. */
  lemma {:induction false} HiddenUpdate(locals: seq<Local>, vals: seq<Value>, i: nat, v: Value)
    requires |locals| == |vals| && i < |locals| && locals[i].name != SCRUTINEE
    ensures Hidden(locals, vals[i := v]) == Hidden(locals, vals)
    decreases |locals|
  {
    var n := |locals| - 1;
    if i < n {
      assert vals[i := v][..n] == vals[..n][i := v];
      HiddenUpdate(locals[..n], vals[..n], i, v);
    } else {
      assert vals[i := v][..n] == vals[..n];
    }
  }

  lemma {:induction false} HiddenAppend(a: seq<Local>, b: seq<Local>, u: seq<Value>, w: seq<Value>)
    requires |a| == |u| && |b| == |w|
    ensures Hidden(a + b, u + w) == Hidden(a, u) + Hidden(b, w)
    decreases |b|
  {
    if b == [] {
      assert a + b == a && u + w == u;
    } else {
      var n := |b| - 1;
      assert (a + b)[..|a| + n] == a + b[..n] && (u + w)[..|u| + n] == u + w[..n];
      HiddenAppend(a, b[..n], u, w[..n]);
    }
  }

  lemma {:induction false} HiddenNone(locals: seq<Local>, vals: seq<Value>)
    requires |locals| == |vals| && forall i :: 0 <= i < |locals| ==> locals[i].name != SCRUTINEE
    ensures Hidden(locals, vals) == []
    decreases |locals|
  {
    if locals != [] {
      HiddenNone(locals[..|locals| - 1], vals[..|locals| - 1]);
    }
  }
}
