/**
 Pattern matching: the tree-walker binds names as it goes (`match_pattern` in
 `src/interpreter/mod.rs`), the machine collects values (`match_rec` in
 `src/vm/vm.rs`) and the compiler gives them names (`pattern_binding_names` in
 `src/compiler/mod.rs`).
 */
module Patterns {
  import opened Values

  datatype Pattern =
    | Wildcard
    | Lit(v: Value)
    | Bind(x: string)
    | Variant(name: string, args: seq<Pattern>)
    | Struct(fields: seq<FieldPattern>)
    | Vec(pats: seq<Pattern>, rest: bool)
    | Or(alts: seq<Pattern>)

  datatype FieldPattern = FieldPattern(name: string, p: Pattern)

  type Frame = map<string, Value>

  // ----- what a pattern means -----

  predicate Matches(p: Pattern, v: Value)
    decreases p
  {
    match p
    case Wildcard => true
    case Lit(l) => l == v
    case Bind(_) => true
    case Variant(name, args) =>
      v.Variant? && v.name == name && |v.args| == |args| && forall i :: 0 <= i < |args| ==> Matches(args[i], v.args[i])
    case Struct(fields) =>
      && v.Struct?
      && forall i :: 0 <= i < |fields| ==>
           fields[i].name in v.fields && Matches(fields[i].p, v.fields[fields[i].name])
    case Vec(pats, rest) =>
      v.Vec? && (if rest then |pats| <= |v.items| else |pats| == |v.items|)
      && forall i :: 0 <= i < |pats| ==> Matches(pats[i], v.items[i])
    case Or(alts) => exists i :: 0 <= i < |alts| && Matches(alts[i], v)
  }

  // ----- the tree-walker -----

  /** Match, and the frame afterwards; a failed match may have bound some names already. */
  function MatchTree(p: Pattern, v: Value, f: Frame): (bool, Frame)
    decreases p, 0
  {
    match p
    case Wildcard => (true, f)
    case Lit(l) => (l == v, f)
    case Bind(x) => (true, f[x := v])
    case Variant(name, args) =>
      if v.Variant? && v.name == name && |v.args| == |args| then MatchTreeAll(args, v.args, f) else (false, f)
    case Struct(fields) => if v.Struct? then MatchTreeFields(fields, v.fields, f) else (false, f)
    case Vec(pats, rest) =>
      if v.Vec? && (if rest then |pats| <= |v.items| else |pats| == |v.items|)
      then MatchTreeAll(pats, v.items[..|pats|], f)
      else (false, f)
    case Or(alts) => MatchTreeOr(alts, v, f)
  }

  function MatchTreeAll(ps: seq<Pattern>, vs: seq<Value>, f: Frame): (bool, Frame)
    requires |ps| == |vs|
    decreases ps, 1
  {
    if ps == [] then (true, f)
    else
      var r := MatchTree(ps[0], vs[0], f);
      if r.0 then MatchTreeAll(ps[1..], vs[1..], r.1) else r
  }

  function MatchTreeFields(fs: seq<FieldPattern>, vf: map<string, Value>, f: Frame): (bool, Frame)
    decreases fs, 1
  {
    if fs == [] then (true, f)
    else if fs[0].name !in vf then (false, f)
    else
      var r := MatchTree(fs[0].p, vf[fs[0].name], f);
      if r.0 then MatchTreeFields(fs[1..], vf, r.1) else r
  }

  /** Each alternative binds in a frame of its own, which is merged if it matches. */
  function MatchTreeOr(alts: seq<Pattern>, v: Value, f: Frame): (bool, Frame)
    decreases alts, 1
  {
    if alts == [] then (false, f)
    else
      var r := MatchTree(alts[0], v, map[]);
      if r.0 then (true, f + r.1) else MatchTreeOr(alts[1..], v, f)
  }

  // ----- the machine -----

  /** Match, and the values collected so far. */
  function MatchVm(p: Pattern, v: Value, b: seq<Value>): (bool, seq<Value>)
    decreases p, 0
  {
    match p
    case Wildcard => (true, b)
    case Lit(l) => (l == v, b)
    case Bind(_) => (true, b + [v])
    case Variant(name, args) =>
      if v.Variant? && v.name == name && |v.args| == |args| then MatchVmAll(args, v.args, b) else (false, b)
    case Struct(fields) => if v.Struct? then MatchVmFields(fields, v.fields, b) else (false, b)
    case Vec(pats, rest) =>
      if v.Vec? && (if rest then |pats| <= |v.items| else |pats| == |v.items|)
      then MatchVmAll(pats, v.items[..|pats|], b)
      else (false, b)
    case Or(alts) => MatchVmOr(alts, v, b)
  }

  function MatchVmAll(ps: seq<Pattern>, vs: seq<Value>, b: seq<Value>): (bool, seq<Value>)
    requires |ps| == |vs|
    decreases ps, 1
  {
    if ps == [] then (true, b)
    else
      var r := MatchVm(ps[0], vs[0], b);
      if r.0 then MatchVmAll(ps[1..], vs[1..], r.1) else r
  }

  function MatchVmFields(fs: seq<FieldPattern>, vf: map<string, Value>, b: seq<Value>): (bool, seq<Value>)
    decreases fs, 1
  {
    if fs == [] then (true, b)
    else if fs[0].name !in vf then (false, b)
    else
      var r := MatchVm(fs[0].p, vf[fs[0].name], b);
      if r.0 then MatchVmFields(fs[1..], vf, r.1) else r
  }

  function MatchVmOr(alts: seq<Pattern>, v: Value, b: seq<Value>): (bool, seq<Value>)
    decreases alts, 1
  {
    if alts == [] then (false, b)
    else
      var r := MatchVm(alts[0], v, []);
      if r.0 then (true, b + r.1) else MatchVmOr(alts[1..], v, b)
  }

  // ----- names -----

  /** The names the compiler gives to the collected values: those of the first alternative. */
  function Names(p: Pattern): seq<string>
    decreases p, 0
  {
    match p
    case Wildcard => []
    case Lit(_) => []
    case Bind(x) => [x]
    case Variant(_, args) => NamesAll(args)
    case Struct(fields) => NamesFields(fields)
    case Vec(pats, _) => NamesAll(pats)
    case Or(alts) => if alts == [] then [] else Names(alts[0])
  }

  function NamesAll(ps: seq<Pattern>): seq<string>
    decreases ps, 1
  {
    if ps == [] then [] else Names(ps[0]) + NamesAll(ps[1..])
  }

  function NamesFields(fs: seq<FieldPattern>): seq<string>
    decreases fs, 1
  {
    if fs == [] then [] else Names(fs[0].p) + NamesFields(fs[1..])
  }

  /** What a match binds, in the order of the pattern: an or-pattern binds what its first matching alternative does. */
  function Bindings(p: Pattern, v: Value): seq<(string, Value)>
    requires Matches(p, v)
    decreases p, 0
  {
    match p
    case Wildcard => []
    case Lit(_) => []
    case Bind(x) => [(x, v)]
    case Variant(_, args) => BindingsAll(args, v.args)
    case Struct(fields) => BindingsFields(fields, v.fields)
    case Vec(pats, _) => BindingsAll(pats, v.items[..|pats|])
    case Or(alts) => BindingsOr(alts, v)
  }

  function BindingsAll(ps: seq<Pattern>, vs: seq<Value>): seq<(string, Value)>
    requires |ps| == |vs| && forall i :: 0 <= i < |ps| ==> Matches(ps[i], vs[i])
    decreases ps, 1
  {
    if ps == [] then [] else Bindings(ps[0], vs[0]) + BindingsAll(ps[1..], vs[1..])
  }

  function BindingsFields(fs: seq<FieldPattern>, vf: map<string, Value>): seq<(string, Value)>
    requires forall i :: 0 <= i < |fs| ==> fs[i].name in vf && Matches(fs[i].p, vf[fs[i].name])
    decreases fs, 1
  {
    if fs == [] then [] else Bindings(fs[0].p, vf[fs[0].name]) + BindingsFields(fs[1..], vf)
  }

  function BindingsOr(alts: seq<Pattern>, v: Value): seq<(string, Value)>
    requires exists i :: 0 <= i < |alts| && Matches(alts[i], v)
    decreases alts, 1
  {
    if Matches(alts[0], v) then Bindings(alts[0], v)
    else
      LaterMatches(alts, v);
      BindingsOr(alts[1..], v)
  }

  lemma LaterMatches(alts: seq<Pattern>, v: Value)
    requires alts != [] && !Matches(alts[0], v)
    ensures (exists i :: 0 <= i < |alts| && Matches(alts[i], v)) <==>
            (exists i :: 0 <= i < |alts[1..]| && Matches(alts[1..][i], v))
  {
    if i :| 0 <= i < |alts| && Matches(alts[i], v) {
      assert Matches(alts[1..][i - 1], v);
    }
    if i :| 0 <= i < |alts[1..]| && Matches(alts[1..][i], v) {
      assert Matches(alts[i + 1], v);
    }
  }

  // ----- binding -----

  /** Bind the names to the values, left to right; a later binding hides an earlier one. */
  function BindAll(f: Frame, bs: seq<(string, Value)>): Frame
    decreases |bs|
  {
    if bs == [] then f else BindAll(f[bs[0].0 := bs[0].1], bs[1..])
  }

  function NamesOf(bs: seq<(string, Value)>): seq<string> {
    seq(|bs|, i requires 0 <= i < |bs| => bs[i].0)
  }

  function ValuesOf(bs: seq<(string, Value)>): seq<Value> {
    seq(|bs|, i requires 0 <= i < |bs| => bs[i].1)
  }

  lemma {:induction false} BindAppend(f: Frame, a: seq<(string, Value)>, b: seq<(string, Value)>)
    ensures BindAll(BindAll(f, a), b) == BindAll(f, a + b)
    decreases |a|
  {
    if a == [] {
      assert a + b == b;
    } else {
      BindAppend(f[a[0].0 := a[0].1], a[1..], b);
      assert (a + b)[1..] == a[1..] + b;
    }
  }

  /** Binding in a fresh frame and merging is binding. */
  lemma {:induction false} BindOver(f: Frame, g: Frame, bs: seq<(string, Value)>)
    ensures BindAll(f + g, bs) == f + BindAll(g, bs)
    decreases |bs|
  {
    if bs != [] {
      BindOver(f, g[bs[0].0 := bs[0].1], bs[1..]);
      assert (f + g)[bs[0].0 := bs[0].1] == f + g[bs[0].0 := bs[0].1];
    }
  }

  // ----- the tree-walker meets the meaning -----

  /** The tree-walker decides the meaning, and on success binds what the pattern binds, and nothing else. */
  lemma {:induction false} TreeMeets(p: Pattern, v: Value, f: Frame)
    ensures MatchTree(p, v, f).0 == Matches(p, v)
    ensures Matches(p, v) ==> MatchTree(p, v, f).1 == BindAll(f, Bindings(p, v))
    decreases p, 0
  {
    match p
    case Wildcard =>
    case Lit(_) =>
    case Bind(_) =>
    case Variant(name, args) =>
      if v.Variant? && v.name == name && |v.args| == |args| {
        TreeMeetsAll(args, v.args, f);
      }
    case Struct(fields) =>
      if v.Struct? {
        TreeMeetsFields(fields, v.fields, f);
      }
    case Vec(pats, rest) =>
      if v.Vec? && (if rest then |pats| <= |v.items| else |pats| == |v.items|) {
        TreeMeetsAll(pats, v.items[..|pats|], f);
      }
    case Or(alts) => TreeMeetsOr(alts, v, f);
  }

  lemma {:induction false} TreeMeetsAll(ps: seq<Pattern>, vs: seq<Value>, f: Frame)
    requires |ps| == |vs|
    ensures MatchTreeAll(ps, vs, f).0 == forall i :: 0 <= i < |ps| ==> Matches(ps[i], vs[i])
    ensures MatchTreeAll(ps, vs, f).0 ==> MatchTreeAll(ps, vs, f).1 == BindAll(f, BindingsAll(ps, vs))
    decreases ps, 1
  {
    if ps != [] {
      TreeMeets(ps[0], vs[0], f);
      var r := MatchTree(ps[0], vs[0], f);
      AllSplits(ps, vs);
      if r.0 {
        TreeMeetsAll(ps[1..], vs[1..], r.1);
        if MatchTreeAll(ps[1..], vs[1..], r.1).0 {
          BindAppend(f, Bindings(ps[0], vs[0]), BindingsAll(ps[1..], vs[1..]));
        }
      }
    }
  }

  lemma AllSplits(ps: seq<Pattern>, vs: seq<Value>)
    requires |ps| == |vs| && ps != []
    ensures (forall i :: 0 <= i < |ps| ==> Matches(ps[i], vs[i])) <==>
            Matches(ps[0], vs[0]) && forall i :: 0 <= i < |ps[1..]| ==> Matches(ps[1..][i], vs[1..][i])
  {
    if Matches(ps[0], vs[0]) && forall i :: 0 <= i < |ps[1..]| ==> Matches(ps[1..][i], vs[1..][i]) {
      forall i | 0 <= i < |ps|
        ensures Matches(ps[i], vs[i])
      {
        assert i > 0 ==> ps[i] == ps[1..][i - 1] && vs[i] == vs[1..][i - 1];
      }
    }
  }

  predicate FieldMatches(f: FieldPattern, vf: map<string, Value>) {
    f.name in vf && Matches(f.p, vf[f.name])
  }

  lemma FieldsSplit(fs: seq<FieldPattern>, vf: map<string, Value>)
    requires fs != []
    ensures (forall i :: 0 <= i < |fs| ==> fs[i].name in vf && Matches(fs[i].p, vf[fs[i].name])) <==>
            FieldMatches(fs[0], vf)
            && forall i :: 0 <= i < |fs[1..]| ==> fs[1..][i].name in vf && Matches(fs[1..][i].p, vf[fs[1..][i].name])
  {
    if FieldMatches(fs[0], vf)
       && forall i :: 0 <= i < |fs[1..]| ==> fs[1..][i].name in vf && Matches(fs[1..][i].p, vf[fs[1..][i].name]) {
      forall i | 0 <= i < |fs|
        ensures fs[i].name in vf && Matches(fs[i].p, vf[fs[i].name])
      {
        assert i > 0 ==> fs[i] == fs[1..][i - 1];
      }
    }
  }

  lemma {:induction false} TreeMeetsFields(fs: seq<FieldPattern>, vf: map<string, Value>, f: Frame)
    ensures MatchTreeFields(fs, vf, f).0 ==
              forall i :: 0 <= i < |fs| ==> fs[i].name in vf && Matches(fs[i].p, vf[fs[i].name])
    ensures MatchTreeFields(fs, vf, f).0 ==> MatchTreeFields(fs, vf, f).1 == BindAll(f, BindingsFields(fs, vf))
    decreases fs, 1
  {
    if fs != [] {
      FieldsSplit(fs, vf);
      if fs[0].name in vf {
        TreeMeets(fs[0].p, vf[fs[0].name], f);
        var r := MatchTree(fs[0].p, vf[fs[0].name], f);
        if r.0 {
          TreeMeetsFields(fs[1..], vf, r.1);
          if MatchTreeFields(fs[1..], vf, r.1).0 {
            BindAppend(f, Bindings(fs[0].p, vf[fs[0].name]), BindingsFields(fs[1..], vf));
          }
        }
      }
    }
  }

  lemma {:induction false} TreeMeetsOr(alts: seq<Pattern>, v: Value, f: Frame)
    ensures MatchTreeOr(alts, v, f).0 == exists i :: 0 <= i < |alts| && Matches(alts[i], v)
    ensures MatchTreeOr(alts, v, f).0 ==> MatchTreeOr(alts, v, f).1 == BindAll(f, BindingsOr(alts, v))
    decreases alts, 1
  {
    if alts != [] {
      TreeMeets(alts[0], v, map[]);
      if Matches(alts[0], v) {
        BindOver(f, map[], Bindings(alts[0], v));
        assert f + map[] == f;
      } else {
        LaterMatches(alts, v);
        TreeMeetsOr(alts[1..], v, f);
      }
    }
  }

  // ----- the machine meets the meaning -----

  lemma ValuesAppend(a: seq<(string, Value)>, b: seq<(string, Value)>)
    ensures ValuesOf(a + b) == ValuesOf(a) + ValuesOf(b)
  {
  }

  /** The machine decides the same, and collects the values the tree-walker binds, in the same order. */
  lemma {:induction false} VmMeets(p: Pattern, v: Value, b: seq<Value>)
    ensures MatchVm(p, v, b).0 == Matches(p, v)
    ensures Matches(p, v) ==> MatchVm(p, v, b).1 == b + ValuesOf(Bindings(p, v))
    decreases p, 0
  {
    match p
    case Wildcard => assert b + [] == b;
    case Lit(_) => assert b + [] == b;
    case Bind(_) =>
    case Variant(name, args) =>
      if v.Variant? && v.name == name && |v.args| == |args| {
        VmMeetsAll(args, v.args, b);
      }
    case Struct(fields) =>
      if v.Struct? {
        VmMeetsFields(fields, v.fields, b);
      }
    case Vec(pats, rest) =>
      if v.Vec? && (if rest then |pats| <= |v.items| else |pats| == |v.items|) {
        VmMeetsAll(pats, v.items[..|pats|], b);
      }
    case Or(alts) => VmMeetsOr(alts, v, b);
  }

  lemma {:induction false} VmMeetsAll(ps: seq<Pattern>, vs: seq<Value>, b: seq<Value>)
    requires |ps| == |vs|
    ensures MatchVmAll(ps, vs, b).0 == forall i :: 0 <= i < |ps| ==> Matches(ps[i], vs[i])
    ensures MatchVmAll(ps, vs, b).0 ==> MatchVmAll(ps, vs, b).1 == b + ValuesOf(BindingsAll(ps, vs))
    decreases ps, 1
  {
    if ps == [] {
      assert b + [] == b;
    } else {
      VmMeets(ps[0], vs[0], b);
      var r := MatchVm(ps[0], vs[0], b);
      AllSplits(ps, vs);
      if r.0 {
        VmMeetsAll(ps[1..], vs[1..], r.1);
        if MatchVmAll(ps[1..], vs[1..], r.1).0 {
          ValuesAppend(Bindings(ps[0], vs[0]), BindingsAll(ps[1..], vs[1..]));
        }
      }
    }
  }

  lemma {:induction false} VmMeetsFields(fs: seq<FieldPattern>, vf: map<string, Value>, b: seq<Value>)
    ensures MatchVmFields(fs, vf, b).0 ==
              forall i :: 0 <= i < |fs| ==> fs[i].name in vf && Matches(fs[i].p, vf[fs[i].name])
    ensures MatchVmFields(fs, vf, b).0 ==> MatchVmFields(fs, vf, b).1 == b + ValuesOf(BindingsFields(fs, vf))
    decreases fs, 1
  {
    if fs == [] {
      assert b + [] == b;
    } else {
      FieldsSplit(fs, vf);
      if fs[0].name in vf {
        VmMeets(fs[0].p, vf[fs[0].name], b);
        var r := MatchVm(fs[0].p, vf[fs[0].name], b);
        if r.0 {
          VmMeetsFields(fs[1..], vf, r.1);
          if MatchVmFields(fs[1..], vf, r.1).0 {
            ValuesAppend(Bindings(fs[0].p, vf[fs[0].name]), BindingsFields(fs[1..], vf));
          }
        }
      }
    }
  }

  lemma {:induction false} VmMeetsOr(alts: seq<Pattern>, v: Value, b: seq<Value>)
    ensures MatchVmOr(alts, v, b).0 == exists i :: 0 <= i < |alts| && Matches(alts[i], v)
    ensures MatchVmOr(alts, v, b).0 ==> MatchVmOr(alts, v, b).1 == b + ValuesOf(BindingsOr(alts, v))
    decreases alts, 1
  {
    if alts != [] {
      VmMeets(alts[0], v, []);
      if !Matches(alts[0], v) {
        LaterMatches(alts, v);
        VmMeetsOr(alts[1..], v, b);
      }
    }
  }

  // ----- the compiled names -----

  /** All alternatives of every or-pattern list the same names in the same order. */
  predicate SameNames(p: Pattern)
    decreases p
  {
    match p
    case Variant(_, args) => forall i :: 0 <= i < |args| ==> SameNames(args[i])
    case Struct(fields) => forall i :: 0 <= i < |fields| ==> SameNames(fields[i].p)
    case Vec(pats, _) => forall i :: 0 <= i < |pats| ==> SameNames(pats[i])
    case Or(alts) => forall i :: 0 <= i < |alts| ==> SameNames(alts[i]) && Names(alts[i]) == Names(alts[0])
    case _ => true
  }

  lemma {:induction false} NamesAreBound(p: Pattern, v: Value)
    requires Matches(p, v) && SameNames(p)
    ensures NamesOf(Bindings(p, v)) == Names(p)
    decreases p, 0
  {
    match p
    case Wildcard =>
    case Lit(_) =>
    case Bind(_) =>
    case Variant(_, args) => NamesAreBoundAll(args, v.args);
    case Struct(fields) => NamesAreBoundFields(fields, v.fields);
    case Vec(pats, _) => NamesAreBoundAll(pats, v.items[..|pats|]);
    case Or(alts) => NamesAreBoundOr(alts, v, Names(p));
  }

  lemma {:induction false} NamesAreBoundAll(ps: seq<Pattern>, vs: seq<Value>)
    requires |ps| == |vs| && forall i :: 0 <= i < |ps| ==> Matches(ps[i], vs[i]) && SameNames(ps[i])
    ensures NamesOf(BindingsAll(ps, vs)) == NamesAll(ps)
    decreases ps, 1
  {
    if ps != [] {
      NamesAreBound(ps[0], vs[0]);
      NamesAreBoundAll(ps[1..], vs[1..]);
    }
  }

  lemma {:induction false} NamesAreBoundFields(fs: seq<FieldPattern>, vf: map<string, Value>)
    requires forall i :: 0 <= i < |fs| ==> fs[i].name in vf && Matches(fs[i].p, vf[fs[i].name]) && SameNames(fs[i].p)
    ensures NamesOf(BindingsFields(fs, vf)) == NamesFields(fs)
    decreases fs, 1
  {
    if fs != [] {
      NamesAreBound(fs[0].p, vf[fs[0].name]);
      NamesAreBoundFields(fs[1..], vf);
    }
  }

  lemma {:induction false} NamesAreBoundOr(alts: seq<Pattern>, v: Value, names: seq<string>)
    requires exists i :: 0 <= i < |alts| && Matches(alts[i], v)
    requires forall i :: 0 <= i < |alts| ==> SameNames(alts[i]) && Names(alts[i]) == names
    ensures NamesOf(BindingsOr(alts, v)) == names
    decreases alts, 1
  {
    if Matches(alts[0], v) {
      NamesAreBound(alts[0], v);
    } else {
      LaterMatches(alts, v);
      NamesAreBoundOr(alts[1..], v, names);
    }
  }

  function Paired(names: seq<string>, vals: seq<Value>): (bs: seq<(string, Value)>)
    requires |names| == |vals|
    ensures |bs| == |vals| && forall i :: 0 <= i < |bs| ==> bs[i] == (names[i], vals[i])
  {
    seq(|vals|, i requires 0 <= i < |vals| => (names[i], vals[i]))
  }

  /**
   The frame compiled code sees: the compiler's names on the machine's values, which lie in consecutive slots. If there
   are fewer values than names, the last names have no slot; if there are more, the last values have no name.
   */
  function CompiledFrame(p: Pattern, vals: seq<Value>, f: Frame): Frame {
    var names := Names(p);
    var n := if |names| < |vals| then |names| else |vals|;
    BindAll(f, Paired(names[..n], vals[..n]))
  }

  /** If or-patterns name alike, compiled matching binds exactly what the tree-walker binds. */
  lemma BackEndsAgree(p: Pattern, v: Value, f: Frame)
    requires SameNames(p)
    ensures MatchTree(p, v, f).0 == MatchVm(p, v, []).0
    ensures MatchTree(p, v, f).0 ==>
              && |MatchVm(p, v, []).1| == |Names(p)|
              && CompiledFrame(p, MatchVm(p, v, []).1, f) == MatchTree(p, v, f).1
  {
    hide MatchTree, MatchVm, Matches, Names, Bindings, SameNames, BindAll;
    TreeMeets(p, v, f);
    VmMeets(p, v, []);
    if Matches(p, v) {
      NamesAreBound(p, v);
      var bs, vals := Bindings(p, v), MatchVm(p, v, []).1;
      assert vals == ValuesOf(bs);
      assert forall i :: 0 <= i < |bs| ==> NamesOf(bs)[i] == bs[i].0;
      assert Paired(Names(p), vals) == bs && Names(p)[..|vals|] == Names(p) && vals[..|vals|] == vals;
    }
  }

  /**
   Where or-patterns do not name alike: the compiled names are right for a value
   exactly when its first matching alternative names like the first one.
   */
  lemma {:induction false} OrNamesFirst(alts: seq<Pattern>, v: Value, i: nat)
    requires i < |alts| && Matches(alts[i], v) && forall k :: 0 <= k < i ==> !Matches(alts[k], v)
    requires SameNames(alts[i])
    ensures Matches(Pattern.Or(alts), v)
    ensures NamesOf(Bindings(Pattern.Or(alts), v)) == Names(Pattern.Or(alts)) <==> Names(alts[i]) == Names(alts[0])
  {
    FirstAlternative(alts, v, i);
    NamesAreBound(alts[i], v);
  }

  lemma {:induction false} FirstAlternative(alts: seq<Pattern>, v: Value, i: nat)
    requires i < |alts| && Matches(alts[i], v) && forall k :: 0 <= k < i ==> !Matches(alts[k], v)
    ensures BindingsOr(alts, v) == Bindings(alts[i], v)
    decreases i
  {
    if i > 0 {
      FirstAlternative(alts[1..], v, i - 1);
    }
  }

  predicate Distinct<T(==)>(xs: seq<T>) {
    forall i, j :: 0 <= i < j < |xs| ==> xs[i] != xs[j]
  }

  /** What a name is bound to, if no other binding has its name. */
  lemma {:induction false} BoundTo(f: Frame, bs: seq<(string, Value)>, x: string)
    requires Distinct(NamesOf(bs))
    ensures x in NamesOf(bs) ==>
              exists k :: 0 <= k < |bs| && bs[k].0 == x && x in BindAll(f, bs) && BindAll(f, bs)[x] == bs[k].1
    ensures x !in NamesOf(bs) ==> (x in BindAll(f, bs) <==> x in f) && (x in f ==> BindAll(f, bs)[x] == f[x])
    decreases |bs|
  {
    if bs != [] {
      var rest := bs[1..];
      assert NamesOf(rest) == NamesOf(bs)[1..];
      BoundTo(f[bs[0].0 := bs[0].1], rest, x);
      if x in NamesOf(rest) {
        var k :| 0 <= k < |rest| && rest[k].0 == x && BindAll(f[bs[0].0 := bs[0].1], rest)[x] == rest[k].1;
        assert bs[k + 1].0 == x;
      } else if x == bs[0].0 {
        assert bs[0].0 == x;
      }
      assert x in NamesOf(bs) <==> x == NamesOf(bs)[0] || x in NamesOf(bs)[1..];
    }
  }

  /**
   For any pattern, with or-patterns anywhere in it: where no name and no value
   comes twice, the compiled frame is the tree-walker's for a value exactly if
   the names bound by the alternatives chosen for it are those the compiler
   listed, in order, or the first of them.
   */
  lemma FramesAgree(p: Pattern, v: Value)
    requires Matches(p, v)
    requires Distinct(Names(p)) && Distinct(NamesOf(Bindings(p, v))) && Distinct(ValuesOf(Bindings(p, v)))
    ensures MatchTree(p, v, map[]).0 && MatchVm(p, v, []) == (true, ValuesOf(Bindings(p, v)))
    ensures CompiledFrame(p, MatchVm(p, v, []).1, map[]) == MatchTree(p, v, map[]).1
            <==> NamesOf(Bindings(p, v)) <= Names(p)
  {
    hide *;
    FramesOf(p, v);
    NamesDecide(Bindings(p, v), Names(p));
  }

  /**
   Every name of the compiler has its value in the slot the compiler counts for it, and nothing lies above, exactly if
   the names bound are those listed: one name more or less, and all slots above are off.
   */
  lemma SlotsLineUp(p: Pattern, v: Value)
    requires Matches(p, v)
    requires Distinct(Names(p)) && Distinct(NamesOf(Bindings(p, v))) && Distinct(ValuesOf(Bindings(p, v)))
    ensures var vals := MatchVm(p, v, []).1;
            |vals| == |Names(p)| && CompiledFrame(p, vals, map[]) == MatchTree(p, v, map[]).1
            <==> NamesOf(Bindings(p, v)) == Names(p)
  {
    FramesAgree(p, v);
    hide MatchVm, MatchTree, Names, Bindings, Matches, BindAll, CompiledFrame;
    assert |ValuesOf(Bindings(p, v))| == |NamesOf(Bindings(p, v))|;
  }

  lemma FramesOf(p: Pattern, v: Value)
    requires Matches(p, v)
    ensures var bs := Bindings(p, v);
            && MatchTree(p, v, map[]) == (true, BindAll(map[], bs)) && MatchVm(p, v, []) == (true, ValuesOf(bs))
            && CompiledFrame(p, ValuesOf(bs), map[]) == BindAll(map[], Seen(bs, Names(p)))
  {
    TreeMeets(p, v, map[]);
    VmMeets(p, v, []);
    assert [] + ValuesOf(Bindings(p, v)) == ValuesOf(Bindings(p, v));
    hide MatchTree, MatchVm, Bindings, Names, Matches, BindAll;
  }

  /** The values of `bs` under other names, as far as both go. */
  function Seen(bs: seq<(string, Value)>, names: seq<string>): (cs: seq<(string, Value)>)
    ensures |cs| == if |names| < |bs| then |names| else |bs|
    ensures forall i :: 0 <= i < |cs| ==> cs[i] == (names[i], bs[i].1)
  {
    var n := if |names| < |bs| then |names| else |bs|;
    Paired(names[..n], ValuesOf(bs)[..n])
  }

  /** With distinct names and values, giving the values other names gives another frame. */
  lemma NamesDecide(bs: seq<(string, Value)>, names: seq<string>)
    requires Distinct(names) && Distinct(NamesOf(bs)) && Distinct(ValuesOf(bs))
    ensures BindAll(map[], Seen(bs, names)) == BindAll(map[], bs) <==> NamesOf(bs) <= names
  {
    var cs := Seen(bs, names);
    assert Distinct(NamesOf(cs)) && |ValuesOf(cs)| == |cs|;
    hide BindAll, Distinct;
    if NamesOf(bs) <= names {
      assert forall i :: 0 <= i < |bs| ==> NamesOf(bs)[i] == bs[i].0;
      assert cs == bs;
    } else if |names| < |bs| {
      Nameless(bs, cs);
    } else {
      assert NamesOf(bs) != names[..|bs|];
      var k :| 0 <= k < |bs| && NamesOf(bs)[k] != names[..|bs|][k];
      PartedAt(bs, cs, k);
    }
  }

  /** A value without a name is missing from the frame. */
  lemma Nameless(bs: seq<(string, Value)>, cs: seq<(string, Value)>)
    requires |cs| < |bs| && forall i :: 0 <= i < |cs| ==> cs[i].1 == bs[i].1
    requires Distinct(NamesOf(bs)) && Distinct(NamesOf(cs)) && Distinct(ValuesOf(bs))
    ensures BindAll(map[], bs) != BindAll(map[], cs)
  {
    var n := |cs|;
    var x := bs[n].0;
    assert NamesOf(bs)[n] == x;
    BoundTo(map[], bs, x);
    BoundTo(map[], cs, x);
    var k :| 0 <= k < |bs| && bs[k].0 == x && BindAll(map[], bs)[x] == bs[k].1;
    assert NamesOf(bs)[k] == x;
    assert k == n;
    if x in NamesOf(cs) {
      var j :| 0 <= j < |cs| && cs[j].0 == x && BindAll(map[], cs)[x] == cs[j].1;
      assert ValuesOf(bs)[j] == cs[j].1 && ValuesOf(bs)[n] == bs[n].1;
    }
  }

  lemma PartedAt(bs: seq<(string, Value)>, cs: seq<(string, Value)>, k: nat)
    requires k < |cs| <= |bs| && bs[k].0 != cs[k].0 && forall i :: 0 <= i < |cs| ==> cs[i].1 == bs[i].1
    requires Distinct(NamesOf(bs)) && Distinct(NamesOf(cs)) && Distinct(ValuesOf(bs))
    ensures BindAll(map[], bs) != BindAll(map[], cs)
  {
    var x := cs[k].0;
    BoundTo(map[], bs, x);
    BoundTo(map[], cs, x);
    assert NamesOf(cs)[k] == x;
    var i :| 0 <= i < |cs| && cs[i].0 == x && BindAll(map[], cs)[x] == cs[i].1;
    assert NamesOf(cs)[i] == x;
    assert i == k;
    if x in NamesOf(bs) {
      var j :| 0 <= j < |bs| && bs[j].0 == x && BindAll(map[], bs)[x] == bs[j].1;
      assert ValuesOf(bs)[j] == bs[j].1 && ValuesOf(bs)[k] == cs[k].1;
      assert j != k;
    }
  }

  /** `A(x, y) | B(y, x)` against `B(1, 2)`: the compiled code swaps `x` and `y`. */
  lemma SwappedNames()
    ensures var p := Pattern.Or([Pattern.Variant("A", [Bind("x"), Bind("y")]),
                                 Pattern.Variant("B", [Bind("y"), Bind("x")])]);
            var v := Value.Variant("B", [Int(1), Int(2)]);
            && MatchTree(p, v, map[]) == (true, map["y" := Int(1), "x" := Int(2)])
            && MatchVm(p, v, []) == (true, [Int(1), Int(2)])
            && Names(p) == ["x", "y"]
            && CompiledFrame(p, [Int(1), Int(2)], map[]) == map["x" := Int(1), "y" := Int(2)]
  {
    var a, b := Pattern.Variant("A", [Bind("x"), Bind("y")]), Pattern.Variant("B", [Bind("y"), Bind("x")]);
    var p, v := Pattern.Or([a, b]), Value.Variant("B", [Int(1), Int(2)]);
    assert !MatchTree(a, v, map[]).0 && !MatchVm(a, v, []).0;
    assert p.alts[1..] == [b];
    TwoBinds("y", "x", Int(1), Int(2));
    TwoNames("x", "y");
    var none: Frame := map[];
    assert none + map["y" := Int(1), "x" := Int(2)] == map["y" := Int(1), "x" := Int(2)];
    assert [] + [Int(1), Int(2)] == [Int(1), Int(2)];
    assert map["y" := Int(1)]["x" := Int(2)] == map["y" := Int(1), "x" := Int(2)];
    assert MatchTree(b, v, map[]) == (true, map["y" := Int(1), "x" := Int(2)]);
    assert MatchTreeOr([b], v, map[]) == (true, map["y" := Int(1), "x" := Int(2)]);
    assert MatchTreeOr(p.alts, v, map[]) == MatchTreeOr(p.alts[1..], v, map[]);
    assert MatchTree(p, v, map[]) == (true, map["y" := Int(1), "x" := Int(2)]);
    assert MatchVmOr([b], v, []) == (true, [Int(1), Int(2)]);
    assert Names(p) == Names(a) == NamesAll(a.args);
    var bs := Paired(Names(p), [Int(1), Int(2)]);
    assert Names(p)[..2] == Names(p) && [Int(1), Int(2)][..2] == [Int(1), Int(2)];
    assert bs == [("x", Int(1)), ("y", Int(2))] && bs[1..] == [("y", Int(2))];
    assert BindAll(map["x" := Int(1)], bs[1..]) == map["x" := Int(1), "y" := Int(2)];
  }

  lemma TwoBinds(x: string, y: string, v: Value, w: Value)
    ensures MatchTreeAll([Bind(x), Bind(y)], [v, w], map[]) == (true, map[x := v][y := w])
    ensures MatchVmAll([Bind(x), Bind(y)], [v, w], []) == (true, [v, w])
  {
    var ps, vs := [Bind(x), Bind(y)], [v, w];
    assert ps[1..] == [Bind(y)] && vs[1..] == [w];
    assert MatchTreeAll(ps[1..], vs[1..], map[x := v]) == (true, map[x := v][y := w]);
    assert [] + [v] == [v] && [v] + [w] == [v, w];
    assert MatchVmAll(ps[1..], vs[1..], [v]) == (true, [v, w]);
  }

  lemma TwoNames(x: string, y: string)
    ensures NamesAll([Bind(x), Bind(y)]) == [x, y]
  {
    var ps := [Bind(x), Bind(y)];
    assert ps[1..] == [Bind(y)] && NamesAll(ps[1..]) == [y];
  }

  // ----- the matchers as they run -----

  /** One frame of the tree-walker's environment. */
  class Scope {
    var bindings: Frame

    constructor ()
      ensures bindings == map[]
    {
      bindings := map[];
    }

    method MatchPattern(p: Pattern, v: Value) returns (matched: bool)
      modifies this
      ensures (matched, bindings) == MatchTree(p, v, old(bindings))
      ensures matched == Matches(p, v)
      ensures matched ==> bindings == BindAll(old(bindings), Bindings(p, v))
      decreases p, 0
    {
      TreeMeets(p, v, bindings);
      hide Matches, Bindings, BindAll;
      match p
      case Wildcard => matched := true;
      case Lit(l) => matched := l == v;
      case Bind(x) =>
        bindings := bindings[x := v];
        matched := true;
      case Variant(name, args) =>
        matched := v.Variant? && v.name == name && |v.args| == |args|;
        if matched {
          matched := MatchEach(args, v.args);
        }
      case Struct(fields) =>
        matched := v.Struct?;
        if matched {
          matched := MatchFields(fields, v.fields);
        }
      case Vec(pats, rest) =>
        matched := v.Vec? && if rest then |pats| <= |v.items| else |pats| == |v.items|;
        if matched {
          matched := MatchEach(pats, v.items[..|pats|]);
        }
      case Or(alts) => matched := MatchAlternatives(alts, v);
    }

    method MatchEach(ps: seq<Pattern>, vs: seq<Value>) returns (matched: bool)
      requires |ps| == |vs|
      modifies this
      ensures (matched, bindings) == MatchTreeAll(ps, vs, old(bindings))
      decreases ps, 1
    {
      hide MatchTree, Matches, Bindings, BindAll;
      var k := 0;
      assert ps[0..] == ps && vs[0..] == vs;
      while k < |ps|
        invariant k <= |ps|
        invariant MatchTreeAll(ps[k..], vs[k..], bindings) == MatchTreeAll(ps, vs, old(bindings))
      {
        assert ps[k..][0] == ps[k] && ps[k..][1..] == ps[k + 1..];
        assert vs[k..][0] == vs[k] && vs[k..][1..] == vs[k + 1..];
        matched := MatchPattern(ps[k], vs[k]);
        if !matched {
          return;
        }
        k := k + 1;
      }
      matched := true;
    }

    method MatchFields(fs: seq<FieldPattern>, vf: map<string, Value>) returns (matched: bool)
      modifies this
      ensures (matched, bindings) == MatchTreeFields(fs, vf, old(bindings))
      decreases fs, 1
    {
      hide MatchTree, Matches, Bindings, BindAll;
      var k := 0;
      assert fs[0..] == fs;
      while k < |fs|
        invariant k <= |fs|
        invariant MatchTreeFields(fs[k..], vf, bindings) == MatchTreeFields(fs, vf, old(bindings))
      {
        assert fs[k..][0] == fs[k] && fs[k..][1..] == fs[k + 1..];
        if fs[k].name !in vf {
          return false;
        }
        matched := MatchPattern(fs[k].p, vf[fs[k].name]);
        if !matched {
          return;
        }
        k := k + 1;
      }
      matched := true;
    }

    /** Each alternative in a scope of its own, merged into this one if it matches. */
    method MatchAlternatives(alts: seq<Pattern>, v: Value) returns (matched: bool)
      modifies this
      ensures (matched, bindings) == MatchTreeOr(alts, v, old(bindings))
      decreases alts, 1
    {
      hide MatchTree, Matches, Bindings, BindAll;
      var k := 0;
      assert alts[0..] == alts;
      while k < |alts|
        invariant k <= |alts| && bindings == old(bindings)
        invariant MatchTreeOr(alts[k..], v, bindings) == MatchTreeOr(alts, v, old(bindings))
      {
        assert alts[k..][0] == alts[k] && alts[k..][1..] == alts[k + 1..];
        var sub := new Scope();
        matched := sub.MatchPattern(alts[k], v);
        if matched {
          bindings := bindings + sub.bindings;
          return;
        }
        k := k + 1;
      }
      matched := false;
    }
  }
}
