/** The environments of the tree-walker (`src/interpreter/env.rs`) as values. */
module ScopeChains {
  import opened Values

  type Frame = map<string, Value>

  /** A scope chain, outermost frame first; the first frame holds the globals. */
  type Env = seq<Frame>

  /** A scope chain with a frame for what is declared next. */
  type Chain = env: Env | env != [] witness [map[]]

  function Get(env: Env, x: string): Option<Value> {
    if env == [] then None
    else
      var n := |env| - 1;
      if x in env[n] then Some(env[n][x]) else Get(env[..n], x)
  }

  /** Replace the innermost binding of `x`. */
  function Update(env: Env, x: string, v: Value): (r: Option<Env>)
    ensures r.Some? ==> |r.value| == |env|
  {
    if env == [] then None
    else
      var n := |env| - 1;
      if x in env[n] then Some(env[n := env[n][x := v]])
      else
        match Update(env[..n], x, v)
        case None => None
        case Some(outer) => Some(outer + [env[n]])
  }

  /** The innermost frame that binds `x` decides what `x` is, and is the one that changes. */
  lemma {:induction false} InnermostBinds(env: Env, k: nat, x: string, v: Value)
    requires k < |env| && x in env[k] && forall j :: k < j < |env| ==> x !in env[j]
    ensures Get(env, x) == Some(env[k][x]) && Update(env, x, v) == Some(env[k := env[k][x := v]])
  {
    var n := |env| - 1;
    if k < n {
      InnermostBinds(env[..n], k, x, v);
      assert env[..n][k := env[k][x := v]] + [env[n]] == env[k := env[k][x := v]];
    }
  }

  lemma {:induction false} NoneBinds(env: Env, x: string, v: Value)
    requires forall j :: 0 <= j < |env| ==> x !in env[j]
    ensures Get(env, x) == None && Update(env, x, v) == None
  {
    if env != [] {
      NoneBinds(env[..|env| - 1], x, v);
    }
  }

  function Define(env: Env, x: string, v: Value): Env
    requires env != []
  {
    var n := |env| - 1;
    env[n := env[n][x := v]]
  }
}
