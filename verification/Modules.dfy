/**
 Loading modules depth first (`load_module` in `src/interpreter/mod.rs`), with
 a cache of finished modules and a stack of those being evaluated.
 */
module Modules {
  import opened Values

  type File = nat

  /** Statements of a module, as far as loading is concerned. */
  datatype Stmt = Import(path: string) | Plain | Raises

  datatype Source = Malformed | Parsed(stmts: seq<Stmt>)

  /** The standard modules, the file each path leads to, and the files that can be read. */
  datatype World = World(std: set<string>, resolve: map<string, File>, sources: map<File, Source>)

  datatype LoadError = NotFound | Circular | Unreadable | ParseError | EvalError

  /** `cached` in the order of completion; `evaluated` logs every evaluation that was begun. */
  datatype Loader = Loader(cached: seq<File>, stack: seq<File>, evaluated: seq<File>)

  datatype Outcome = Loaded | Failed(why: LoadError)

  ghost function Elements(s: seq<File>): set<File> {
    set f | f in s
  }

  /** The files that could still be pushed. */
  ghost function Room(w: World, l: Loader): nat {
    |w.sources.Keys - Elements(l.stack)|
  }

  lemma RoomShrinks(w: World, l: Loader, f: File)
    requires f in w.sources && f !in l.stack
    ensures Room(w, Begun(l, f)) < Room(w, l)
  {
    var before, after := w.sources.Keys - Elements(l.stack), w.sources.Keys - Elements(l.stack + [f]);
    assert after == before - {f} && f in before;
  }

  function Begun(l: Loader, f: File): Loader {
    Loader(l.cached, l.stack + [f], l.evaluated + [f])
  }

  /** Evaluated to the end: off the stack and into the cache. */
  function Finish(l: Loader, f: File): Loader
    requires l.stack != []
  {
    Loader(l.cached + [f], l.stack[..|l.stack| - 1], l.evaluated)
  }

  /** A failed evaluation returns at once: its file stays on the stack. */
  function Load(w: World, l: Loader, path: string): (r: (Loader, Outcome))
    ensures r.1.Loaded? ==> r.0.stack == l.stack
    decreases Room(w, l), 1, 0
  {
    if path in w.std then (l, Loaded)
    else if path !in w.resolve then (l, Failed(NotFound))
    else
      var f := w.resolve[path];
      if f in l.cached then (l, Loaded)
      else if f in l.stack then (l, Failed(Circular))
      else if f !in w.sources then (l, Failed(Unreadable))
      else if w.sources[f].Malformed? then (l, Failed(ParseError))
      else
        RoomShrinks(w, l, f);
        var r := EvalStmts(w, Begun(l, f), w.sources[f].stmts);
        if r.1.Loaded? then (Finish(r.0, f), Loaded) else r
  }

  function EvalStmts(w: World, l: Loader, stmts: seq<Stmt>): (r: (Loader, Outcome))
    ensures r.1.Loaded? ==> r.0.stack == l.stack
    decreases Room(w, l), 2, |stmts|
  {
    if stmts == [] then (l, Loaded)
    else
      var r := match stmts[0]
        case Import(path) => Load(w, l, path)
        case Plain => (l, Loaded)
        case Raises => (l, Failed(EvalError));
      if r.1.Loaded? then EvalStmts(w, r.0, stmts[1..]) else r
  }

  // ----- the import graph -----

  /** The file can be read and parsed, none of its statements raises, and its imports resolve. */
  predicate Good(w: World, f: File) {
    && f in w.sources && w.sources[f].Parsed?
    && forall s :: s in w.sources[f].stmts ==>
         !s.Raises? && (s.Import? ==> s.path in w.std || s.path in w.resolve)
  }

  predicate Imports(w: World, f: File, g: File) {
    && f in w.sources && w.sources[f].Parsed?
    && exists s :: s in w.sources[f].stmts && ImportOf(w, s, g)
  }

  predicate ImportOf(w: World, s: Stmt, g: File) {
    s.Import? && s.path !in w.std && s.path in w.resolve && w.resolve[s.path] == g
  }

  predicate Walk(w: World, p: seq<File>) {
    p != [] && forall i :: 0 <= i < |p| - 1 ==> Imports(w, p[i], p[i + 1])
  }

  predicate WalkBetween(w: World, p: seq<File>, f: File, g: File) {
    Walk(w, p) && p[0] == f && p[|p| - 1] == g
  }

  ghost predicate Reaches(w: World, f: File, g: File) {
    exists p :: WalkBetween(w, p, f, g)
  }

  ghost predicate Cyclic(w: World, f: File) {
    exists p :: WalkBetween(w, p, f, f) && |p| > 1
  }

  /** Everything reachable from `f` is good, and no cycle is reachable from it. */
  ghost predicate Sound(w: World, f: File) {
    forall g :: Reaches(w, f, g) ==> Good(w, g) && !Cyclic(w, g)
  }

  lemma ReachesSelf(w: World, f: File)
    ensures Reaches(w, f, f)
  {
    assert WalkBetween(w, [f], f, f);
  }

  lemma ReachesVia(w: World, f: File, g: File, h: File)
    requires Imports(w, f, g) && Reaches(w, g, h)
    ensures Reaches(w, f, h)
    ensures h == f ==> Cyclic(w, f)
  {
    var p :| WalkBetween(w, p, g, h);
    var q := [f] + p;
    forall i | 0 <= i < |q| - 1
      ensures Imports(w, q[i], q[i + 1])
    {
      if i > 0 {
        assert Imports(w, p[i - 1], p[i]);
      }
    }
    assert WalkBetween(w, q, f, h);
  }

  lemma SoundImports(w: World, f: File, g: File)
    requires Sound(w, f) && Imports(w, f, g)
    ensures Sound(w, g)
  {
    forall h | Reaches(w, g, h)
      ensures Good(w, h) && !Cyclic(w, h)
    {
      ReachesVia(w, f, g, h);
    }
  }

  // ----- what loading keeps -----

  /** Cached files are good, and their imports were cached before them. */
  ghost predicate Ordered(w: World, cached: seq<File>) {
    && (forall i :: 0 <= i < |cached| ==> Good(w, cached[i]))
    && forall i, g :: 0 <= i < |cached| && Imports(w, cached[i], g) ==> g in cached[..i]
  }

  /** What has been evaluated is on the stack or cached, once. */
  ghost predicate Valid(w: World, l: Loader) {
    && Ordered(w, l.cached)
    && multiset(l.evaluated) == multiset(l.stack) + multiset(l.cached)
    && forall f :: multiset(l.evaluated)[f] <= 1
  }

  /** No file is evaluated twice, and none is on the stack twice or on the stack and cached. */
  lemma OnceOnly(w: World, l: Loader)
    requires Valid(w, l)
    ensures forall i, j :: 0 <= i < j < |l.evaluated| ==> l.evaluated[i] != l.evaluated[j]
    ensures forall i, j :: 0 <= i < j < |l.stack| ==> l.stack[i] != l.stack[j]
    ensures forall f :: f in l.stack ==> f !in l.cached
  {
    NoDuplicates(l.evaluated);
    forall f
      ensures multiset(l.stack)[f] <= 1
    {
      assert multiset(l.evaluated)[f] <= 1;
    }
    NoDuplicates(l.stack);
    forall f | f in l.stack
      ensures f !in l.cached
    {
      assert multiset(l.stack)[f] >= 1 && multiset(l.evaluated)[f] <= 1;
      assert multiset(l.cached)[f] == 0;
    }
  }

  lemma NoDuplicates(s: seq<File>)
    requires forall f :: multiset(s)[f] <= 1
    ensures forall i, j :: 0 <= i < j < |s| ==> s[i] != s[j]
  {
    forall i, j | 0 <= i < j < |s|
      ensures s[i] != s[j]
    {
      Twice(s, i, j);
    }
  }

  lemma Twice(s: seq<File>, i: nat, j: nat)
    requires i < j < |s|
    ensures s[i] == s[j] ==> multiset(s)[s[i]] >= 2
  {
    assert s == s[..i] + [s[i]] + s[i + 1..j] + [s[j]] + s[j + 1..];
  }

  /** The cache grows at its end. */
  ghost predicate Extends(before: Loader, after: Loader) {
    before.cached <= after.cached
  }

  /** A file's imports are cached or it has none. */
  ghost predicate ImportsCached(w: World, stmts: seq<Stmt>, cached: seq<File>) {
    forall s, g :: s in stmts && ImportOf(w, s, g) ==> g in cached
  }

  /** Its statements cause no error of their own. */
  predicate StmtsGood(w: World, stmts: seq<Stmt>) {
    forall s :: s in stmts ==> !s.Raises? && (s.Import? ==> s.path in w.std || s.path in w.resolve)
  }

  lemma {:induction false} LoadKeeps(w: World, l: Loader, path: string)
    requires Valid(w, l)
    ensures var (l1, r) := Load(w, l, path);
            && Valid(w, l1) && Extends(l, l1) && l.stack <= l1.stack
            && (r.Loaded? ==> path in w.std || (path in w.resolve && w.resolve[path] in l1.cached))
    decreases Room(w, l), 1, 0
  {
    if path !in w.std && path in w.resolve {
      var f := w.resolve[path];
      if f !in l.cached && f !in l.stack && f in w.sources && w.sources[f].Parsed? {
        RoomShrinks(w, l, f);
        BegunValid(w, l, f);
        EvalStmtsKeep(w, Begun(l, f), w.sources[f].stmts);
        var (l1, r) := EvalStmts(w, Begun(l, f), w.sources[f].stmts);
        if r.Loaded? {
          FinishValid(w, l, l1, f);
        }
      }
    }
  }

  lemma BegunValid(w: World, l: Loader, f: File)
    requires Valid(w, l) && f !in l.cached && f !in l.stack
    ensures Valid(w, Begun(l, f))
  {
    assert multiset(l.evaluated)[f] == 0;
  }

  lemma FinishValid(w: World, l: Loader, l1: Loader, f: File)
    requires Valid(w, l1) && l1.stack == l.stack + [f] && Good(w, f)
    requires ImportsCached(w, w.sources[f].stmts, l1.cached)
    ensures Valid(w, Finish(l1, f)) && Finish(l1, f).stack == l.stack
  {
    var l2 := Finish(l1, f);
    assert l2.stack == l.stack;
    forall i, g | 0 <= i < |l2.cached| && Imports(w, l2.cached[i], g)
      ensures g in l2.cached[..i]
    {
      if i < |l1.cached| {
        assert l2.cached[..i] == l1.cached[..i] && l2.cached[i] == l1.cached[i];
      } else {
        assert l2.cached[..i] == l1.cached;
      }
    }
  }

  lemma {:induction false} EvalStmtsKeep(w: World, l: Loader, stmts: seq<Stmt>)
    requires Valid(w, l)
    ensures var (l1, r) := EvalStmts(w, l, stmts);
            && Valid(w, l1) && Extends(l, l1) && l.stack <= l1.stack
            && (r.Loaded? ==> StmtsGood(w, stmts) && ImportsCached(w, stmts, l1.cached))
    decreases Room(w, l), 2, |stmts|
  {
    if stmts != [] {
      var s := stmts[0];
      if s.Import? {
        LoadKeeps(w, l, s.path);
      }
      var r := match s
        case Import(path) => Load(w, l, path)
        case Plain => (l, Loaded)
        case Raises => (l, Failed(EvalError));
      if r.1.Loaded? {
        EvalStmtsKeep(w, r.0, stmts[1..]);
        var l1 := EvalStmts(w, r.0, stmts[1..]).0;
        assert stmts == [s] + stmts[1..];
      }
    }
  }

  // ----- loading decides whether the imports are sound -----

  /** A walk from a cached file stays among those cached before it. */
  lemma {:induction false} WalkGoesBack(w: World, cached: seq<File>, p: seq<File>, i: nat)
    requires Ordered(w, cached) && i < |cached| && Walk(w, p) && p[0] == cached[i]
    ensures p[|p| - 1] in cached[..i + 1]
    ensures |p| > 1 ==> p[|p| - 1] in cached[..i]
    decreases |p|
  {
    if |p| > 1 {
      assert Imports(w, p[0], p[1]);
      var j :| 0 <= j < i && cached[..i][j] == p[1];
      forall k | 0 <= k < |p[1..]| - 1
        ensures Imports(w, p[1..][k], p[1..][k + 1])
      {
        assert Imports(w, p[k + 1], p[k + 2]);
      }
      WalkGoesBack(w, cached, p[1..], j);
    }
  }

  lemma CachedIsSound(w: World, l: Loader, f: File)
    requires Valid(w, l) && f in l.cached
    ensures Sound(w, f)
    ensures forall g :: Reaches(w, f, g) ==> g in l.cached && g !in l.stack
  {
    OnceOnly(w, l);
    CachedOnce(w, l);
    var i :| 0 <= i < |l.cached| && l.cached[i] == f;
    forall g | Reaches(w, f, g)
      ensures g in l.cached && Good(w, g) && !Cyclic(w, g)
    {
      var p :| WalkBetween(w, p, f, g);
      WalkGoesBack(w, l.cached, p, i);
      NoCycleAt(w, l, g);
    }
  }

  lemma CachedOnce(w: World, l: Loader)
    requires Valid(w, l)
    ensures forall i, j :: 0 <= i < j < |l.cached| ==> l.cached[i] != l.cached[j]
  {
    forall f
      ensures multiset(l.cached)[f] <= 1
    {
      assert multiset(l.evaluated)[f] <= 1;
    }
    NoDuplicates(l.cached);
  }

  lemma NoCycleAt(w: World, l: Loader, g: File)
    requires Valid(w, l) && g in l.cached
    ensures !Cyclic(w, g)
  {
    CachedOnce(w, l);
    var i :| 0 <= i < |l.cached| && l.cached[i] == g;
    forall p | WalkBetween(w, p, g, g)
      ensures |p| == 1
    {
      WalkGoesBack(w, l.cached, p, i);
      assert g !in l.cached[..i];
    }
  }

  /** `f` and everything it reaches can be loaded with this stack. */
  ghost predicate Clear(w: World, f: File, stack: seq<File>) {
    Sound(w, f) && forall g :: Reaches(w, f, g) ==> g !in stack
  }

  lemma {:induction false} LoadSucceeds(w: World, l: Loader, path: string)
    requires path !in w.std ==> path in w.resolve && Clear(w, w.resolve[path], l.stack)
    ensures Load(w, l, path).1.Loaded?
    decreases Room(w, l), 1, 0
  {
    if path !in w.std {
      var f := w.resolve[path];
      ReachesSelf(w, f);
      assert Good(w, f);
      if f !in l.cached {
        RoomShrinks(w, l, f);
        forall s, g | s in w.sources[f].stmts && ImportOf(w, s, g)
          ensures Clear(w, g, l.stack + [f])
        {
          ImportIsClear(w, f, g, l.stack);
        }
        EvalStmtsSucceed(w, Begun(l, f), w.sources[f].stmts);
      }
    }
  }

  lemma ImportIsClear(w: World, f: File, g: File, stack: seq<File>)
    requires Clear(w, f, stack) && Imports(w, f, g)
    ensures Clear(w, g, stack + [f])
  {
    SoundImports(w, f, g);
    ReachesSelf(w, f);
    forall h | Reaches(w, g, h)
      ensures h !in stack + [f]
    {
      ReachesVia(w, f, g, h);
      assert !Cyclic(w, f);
    }
  }

  lemma {:induction false} EvalStmtsSucceed(w: World, l: Loader, stmts: seq<Stmt>)
    requires StmtsGood(w, stmts)
    requires forall s, g :: s in stmts && ImportOf(w, s, g) ==> Clear(w, g, l.stack)
    ensures EvalStmts(w, l, stmts).1.Loaded?
    decreases Room(w, l), 2, |stmts|
  {
    if stmts != [] {
      var s := stmts[0];
      var l1 := l;
      if s.Import? {
        if s.path !in w.std {
          assert ImportOf(w, s, w.resolve[s.path]);
        }
        LoadSucceeds(w, l, s.path);
        l1 := Load(w, l, s.path).0;
      }
      EvalStmtsSucceed(w, l1, stmts[1..]);
    }
  }

  /**
   A load succeeds exactly when everything the file reaches by eager imports
   resolves, reads, parses and evaluates, no import cycle is reachable, and
   nothing reachable is on the load stack.
   */
  lemma LoadDecides(w: World, l: Loader, path: string)
    requires Valid(w, l)
    ensures Load(w, l, path).1.Loaded? <==>
              (path !in w.std ==> path in w.resolve && Clear(w, w.resolve[path], l.stack))
  {
    LoadKeeps(w, l, path);
    var (l1, r) := Load(w, l, path);
    hide Load;
    if r.Loaded? && path !in w.std {
      CachedIsSound(w, l1, w.resolve[path]);
      StackKept(w, l, path);
    } else if path !in w.std ==> path in w.resolve && Clear(w, w.resolve[path], l.stack) {
      LoadSucceeds(w, l, path);
    }
  }

  lemma StackKept(w: World, l: Loader, path: string)
    requires Load(w, l, path).1.Loaded?
    ensures Load(w, l, path).0.stack == l.stack
  {
  }

  /** From a fresh start: a load decides acyclicity. */
  lemma FreshLoadDecides(w: World, path: string)
    ensures Load(w, Loader([], [], []), path).1.Loaded? <==>
              (path !in w.std ==> path in w.resolve && Sound(w, w.resolve[path]))
  {
    hide Load, Sound;
    LoadDecides(w, Loader([], [], []), path);
  }

  // ----- order, and the cause of a failure -----

  /** Statements are evaluated in their order, and none after one that failed. */
  lemma {:induction false} InOrder(w: World, l: Loader, a: seq<Stmt>, b: seq<Stmt>)
    ensures var r := EvalStmts(w, l, a);
            EvalStmts(w, l, a + b) == if r.1.Loaded? then EvalStmts(w, r.0, b) else r
    decreases |a|
  {
    if a == [] {
      assert a + b == b;
    } else {
      assert (a + b)[0] == a[0] && (a + b)[1..] == a[1..] + b;
      var r := match a[0]
        case Import(path) => Load(w, l, path)
        case Plain => (l, Loaded)
        case Raises => (l, Failed(EvalError));
      hide Load;
      InOrder(w, r.0, a[1..], b);
    }
  }

  /** The statement is the reason for the error, with these files being evaluated. */
  predicate Causes(w: World, s: Stmt, stack: seq<File>, why: LoadError) {
    if why.EvalError? then s.Raises?
    else
      && s.Import? && s.path !in w.std
      && match why
         case NotFound => s.path !in w.resolve
         case Circular => s.path in w.resolve && w.resolve[s.path] in stack
         case Unreadable => s.path in w.resolve && w.resolve[s.path] !in w.sources
         case ParseError =>
           && s.path in w.resolve && w.resolve[s.path] in w.sources
           && w.sources[w.resolve[s.path]].Malformed?
         case EvalError => false
  }

  /** Files that import each other in turn, the last of which has a statement that causes the error. */
  predicate Leads(w: World, chain: seq<File>, stack: seq<File>, why: LoadError)
    requires chain != []
  {
    && Walk(w, chain)
    && var f := chain[|chain| - 1];
       f in w.sources && w.sources[f].Parsed? && exists s :: s in w.sources[f].stmts && Causes(w, s, stack, why)
  }

  /** What a failed load leaves on the stack leads to the statement that caused the failure. */
  lemma {:induction false} FailureCause(w: World, l: Loader, path: string)
    requires Load(w, l, path).1.Failed?
    ensures var (l1, r) := Load(w, l, path);
            && l.stack <= l1.stack
            && var chain := l1.stack[|l.stack|..];
               if chain == [] then Causes(w, Import(path), l1.stack, r.why)
               else
                 && path !in w.std && path in w.resolve && chain[0] == w.resolve[path]
                 && Leads(w, chain, l1.stack, r.why)
    decreases Room(w, l), 1, 0
  {
    var (l1, r) := Load(w, l, path);
    if path !in w.std && path in w.resolve {
      var f := w.resolve[path];
      if f !in l.cached && f !in l.stack && f in w.sources && w.sources[f].Parsed? {
        RoomShrinks(w, l, f);
        StmtsFailureCause(w, Begun(l, f), w.sources[f].stmts);
        assert l1 == EvalStmts(w, Begun(l, f), w.sources[f].stmts).0;
        var inner := l1.stack[|l.stack| + 1..];
        assert l1.stack[|l.stack|..] == [f] + inner;
        if inner != [] {
          var s :| s in w.sources[f].stmts && ImportOf(w, s, inner[0]);
          assert Imports(w, f, inner[0]);
          LeadsFrom(w, f, inner, l1.stack, r.why);
        }
      }
    }
  }

  lemma LeadsFrom(w: World, f: File, chain: seq<File>, stack: seq<File>, why: LoadError)
    requires chain != [] && Imports(w, f, chain[0]) && Leads(w, chain, stack, why)
    ensures Leads(w, [f] + chain, stack, why)
  {
    forall i | 0 <= i < |[f] + chain| - 1
      ensures Imports(w, ([f] + chain)[i], ([f] + chain)[i + 1])
    {
      if i > 0 {
        assert Imports(w, chain[i - 1], chain[i]);
      }
    }
    hide Causes, Imports;
  }

  lemma {:induction false} StmtsFailureCause(w: World, l: Loader, stmts: seq<Stmt>)
    requires EvalStmts(w, l, stmts).1.Failed?
    ensures var (l1, r) := EvalStmts(w, l, stmts);
            && l.stack <= l1.stack
            && var chain := l1.stack[|l.stack|..];
               if chain == [] then exists s :: s in stmts && Causes(w, s, l1.stack, r.why)
               else (exists s :: s in stmts && ImportOf(w, s, chain[0])) && Leads(w, chain, l1.stack, r.why)
    decreases Room(w, l), 2, |stmts|
  {
    var s := stmts[0];
    var r := match s
      case Import(path) => Load(w, l, path)
      case Plain => (l, Loaded)
      case Raises => (l, Failed(EvalError));
    hide Leads, Causes;
    if r.1.Loaded? {
      StmtsFailureCause(w, r.0, stmts[1..]);
      assert forall t :: t in stmts[1..] ==> t in stmts;
    } else if s.Import? {
      FailureCause(w, l, s.path);
      ImportIs(w, s, if r.0.stack[|l.stack|..] == [] then 0 else r.0.stack[|l.stack|..][0]);
      assert s in stmts;
    } else {
      RaisesCauses(w, s, l.stack);
      assert s in stmts;
    }
  }

  lemma ImportIs(w: World, s: Stmt, g: File)
    requires s.Import?
    ensures s.path !in w.std && s.path in w.resolve && g == w.resolve[s.path] ==> ImportOf(w, s, g)
  {
  }

  lemma RaisesCauses(w: World, s: Stmt, stack: seq<File>)
    requires s.Raises?
    ensures Causes(w, s, stack, EvalError)
  {
  }

  // ----- after a failure -----

  /** A module whose evaluation failed is taken for its own importer ever after. */
  lemma FailureLooksCircular(w: World, l: Loader, path: string)
    requires Valid(w, l) && path !in w.std && path in w.resolve
    requires var f := w.resolve[path];
             f !in l.cached && f !in l.stack && f in w.sources && w.sources[f].Parsed?
    requires Load(w, l, path).1.Failed?
    ensures var l1 := Load(w, l, path).0;
            Valid(w, l1) && w.resolve[path] in l1.stack && Load(w, l1, path) == (l1, Failed(Circular))
  {
    var f := w.resolve[path];
    LoadKeeps(w, l, path);
    BegunValid(w, l, f);
    EvalStmtsKeep(w, Begun(l, f), w.sources[f].stmts);
    var l1 := Load(w, l, path).0;
    assert l1 == EvalStmts(w, Begun(l, f), w.sources[f].stmts).0;
    assert f in Begun(l, f).stack && Begun(l, f).stack <= l1.stack;
    OnceOnly(w, l1);
  }

  lemma WalkHead(w: World, p: seq<File>)
    requires Walk(w, p) && |p| > 1
    ensures Imports(w, p[0], p[1])
  {
  }

  /** A single module that imports nothing and raises: loading it twice reports a cycle that is not there. */
  lemma FalseCycle()
    ensures var w := World({}, map["m" := 0], map[0 := Parsed([Raises])]);
            var (l, r) := Load(w, Loader([], [], []), "m");
            && r == Failed(EvalError) && Load(w, l, "m").1 == Failed(Circular)
            && !Cyclic(w, 0)
  {
    var w := World({}, map["m" := 0], map[0 := Parsed([Raises])]);
    forall p | WalkBetween(w, p, 0, 0)
      ensures |p| == 1
    {
      if |p| > 1 {
        WalkHead(w, p);
      }
    }
  }

  // ----- many loads -----

  function LoadAll(w: World, l: Loader, paths: seq<string>): Loader
    decreases |paths|
  {
    if paths == [] then l else LoadAll(w, Load(w, l, paths[0]).0, paths[1..])
  }

  /** Whatever is loaded, in whatever order, and whatever fails on the way. */
  lemma {:induction false} AlwaysValid(w: World, paths: seq<string>)
    ensures Valid(w, LoadAll(w, Loader([], [], []), paths))
  {
    LoadAllValid(w, Loader([], [], []), paths);
  }

  lemma {:induction false} LoadAllValid(w: World, l: Loader, paths: seq<string>)
    requires Valid(w, l)
    ensures Valid(w, LoadAll(w, l, paths))
    decreases |paths|
  {
    hide Load, Valid;
    if paths != [] {
      LoadKeeps(w, l, paths[0]);
      LoadAllValid(w, Load(w, l, paths[0]).0, paths[1..]);
    }
  }

  // ----- the interpreter's fields -----

  class Importer {
    const w: World
    var cached: seq<File>
    var stack: seq<File>
    ghost var evaluated: seq<File>

    ghost function Now(): Loader
      reads this
    {
      Loader(cached, stack, evaluated)
    }

    constructor (world: World)
      ensures w == world && Now() == Loader([], [], []) && Valid(w, Now())
    {
      w, cached, stack, evaluated := world, [], [], [];
    }

    /** Search a list of files. */
    method Contains(files: seq<File>, f: File) returns (found: bool)
      ensures found == (f in files)
    {
      var k := 0;
      while k < |files|
        invariant k <= |files| && forall j :: 0 <= j < k ==> files[j] != f
      {
        if files[k] == f {
          return true;
        }
        k := k + 1;
      }
      found := false;
    }

    method LoadModule(path: string) returns (r: Outcome)
      requires Valid(w, Now())
      modifies this
      ensures (Now(), r) == Load(w, old(Now()), path) && Valid(w, Now())
      ensures r.Loaded? <==> (path !in w.std ==> path in w.resolve && Clear(w, w.resolve[path], old(stack)))
      decreases Room(w, Now()), 1, 0
    {
      LoadKeeps(w, Now(), path);
      LoadDecides(w, Now(), path);
      hide Valid, Clear;
      if path in w.std {
        return Loaded;
      }
      if path !in w.resolve {
        return Failed(NotFound);
      }
      var f := w.resolve[path];
      var known := Contains(cached, f);
      if known {
        return Loaded;
      }
      var loading := Contains(stack, f);
      if loading {
        return Failed(Circular);
      }
      if f !in w.sources {
        return Failed(Unreadable);
      }
      if w.sources[f].Malformed? {
        return Failed(ParseError);
      }
      RoomShrinks(w, Now(), f);
      BegunValid(w, Now(), f);
      stack := stack + [f];
      evaluated := evaluated + [f];
      r := EvalModule(w.sources[f].stmts);
      if r.Loaded? {
        stack := stack[..|stack| - 1];
        cached := cached + [f];
      }
    }

    /** Evaluate statements up to the first failure. */
    method EvalModule(stmts: seq<Stmt>) returns (r: Outcome)
      requires Valid(w, Now())
      modifies this
      ensures (Now(), r) == EvalStmts(w, old(Now()), stmts) && Valid(w, Now())
      decreases Room(w, Now()), 2, |stmts|
    {
      EvalStmtsKeep(w, Now(), stmts);
      hide Valid, Load, Clear;
      var k := 0;
      assert stmts[0..] == stmts;
      while k < |stmts|
        invariant k <= |stmts| && stack == old(stack) && Valid(w, Now())
        invariant EvalStmts(w, Now(), stmts[k..]) == EvalStmts(w, old(Now()), stmts)
        decreases |stmts| - k
      {
        assert stmts[k..][0] == stmts[k] && stmts[k..][1..] == stmts[k + 1..];
        match stmts[k] {
          case Import(path) =>
            r := LoadModule(path);
            if r.Failed? {
              return;
            }
          case Plain =>
          case Raises => return Failed(EvalError);
        }
        k := k + 1;
      }
      r := Loaded;
    }
  }
}
