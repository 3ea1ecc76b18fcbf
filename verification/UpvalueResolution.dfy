/**
 Resolving captured names at compile time (`resolve_upvalue_at` and
 `add_upvalue` in `src/compiler/mod.rs`): a stack of functions being compiled,
 innermost last, each with its locals and its list of upvalue descriptors.
 */
module UpvalueResolution {
  import opened Values

  datatype Local = Local(name: string, depth: nat, captured: bool)

  /** A descriptor names a local of the enclosing function, or an upvalue of it. */
  datatype UpvalueInfo = UpvalueInfo(isLocal: bool, index: nat)

  datatype FuncCtx = FuncCtx(depth: nat, locals: seq<Local>, upvalues: seq<UpvalueInfo>)

  /** A variable: a slot of one of the functions. */
  datatype Variable = Variable(func: nat, slot: nat)

  // ----- lexical scoping -----

  /** The last visible local called `x`. */
  function FindLocal(locals: seq<Local>, depth: nat, x: string): (r: Option<nat>)
    ensures r.Some? ==> r.value < |locals| && locals[r.value].name == x && locals[r.value].depth <= depth
    ensures forall k :: (if r.Some? then r.value else -1) < k < |locals| ==>
              !(locals[k].name == x && locals[k].depth <= depth)
  {
    if locals == [] then None
    else
      var n := |locals| - 1;
      if locals[n].name == x && locals[n].depth <= depth then Some(n) else FindLocal(locals[..n], depth, x)
  }

  /** The variable `x` means in the functions around the `f`-th: the innermost one that has it. */
  function Lookup(funcs: seq<FuncCtx>, f: nat, x: string): Option<Variable>
    requires f < |funcs|
  {
    if f == 0 then None
    else
      match FindLocal(funcs[f - 1].locals, funcs[f - 1].depth, x)
      case Some(slot) => Some(Variable(f - 1, slot))
      case None => Lookup(funcs, f - 1, x)
  }

  // ----- what descriptors denote -----

  predicate InfoInRange(funcs: seq<FuncCtx>, f: nat, u: UpvalueInfo)
    requires 0 < f < |funcs|
  {
    u.index < if u.isLocal then |funcs[f - 1].locals| else |funcs[f - 1].upvalues|
  }

  /** Descriptors are in range and listed once; a script captures nothing. */
  predicate WellScoped(funcs: seq<FuncCtx>) {
    && (funcs != [] ==> funcs[0].upvalues == [])
    && (forall f, i :: 0 < f < |funcs| && 0 <= i < |funcs[f].upvalues| ==> InfoInRange(funcs, f, funcs[f].upvalues[i]))
    && (forall f, i, j :: 0 < f < |funcs| && 0 <= i < j < |funcs[f].upvalues| ==>
          funcs[f].upvalues[i] != funcs[f].upvalues[j])
  }

  /** Follow a descriptor outwards to the local it ends at. */
  function Denotes(funcs: seq<FuncCtx>, f: nat, i: nat): (v: Variable)
    requires WellScoped(funcs) && f < |funcs| && i < |funcs[f].upvalues|
    ensures v.func < f && v.slot < |funcs[v.func].locals|
  {
    var u := funcs[f].upvalues[i];
    assert InfoInRange(funcs, f, u);
    if u.isLocal then Variable(f - 1, u.index) else Denotes(funcs, f - 1, u.index)
  }

  /** Different descriptors of a function denote different variables: no variable is captured twice. */
  lemma {:induction false} DenotesInjective(funcs: seq<FuncCtx>, f: nat, i: nat, j: nat)
    requires WellScoped(funcs) && f < |funcs| && i < |funcs[f].upvalues| && j < |funcs[f].upvalues| && i != j
    ensures Denotes(funcs, f, i) != Denotes(funcs, f, j)
  {
    var u, w := funcs[f].upvalues[i], funcs[f].upvalues[j];
    assert InfoInRange(funcs, f, u) && InfoInRange(funcs, f, w);
    assert u != w;
    if !u.isLocal && !w.isLocal {
      DenotesInjective(funcs, f - 1, u.index, w.index);
    }
  }

  // ----- resolution -----

  function IndexOf(ups: seq<UpvalueInfo>, u: UpvalueInfo): (i: nat)
    ensures i <= |ups| && (i < |ups| ==> ups[i] == u)
    ensures forall k :: 0 <= k < i ==> ups[k] != u
  {
    if ups == [] || ups[0] == u then 0 else 1 + IndexOf(ups[1..], u)
  }

  function Added(funcs: seq<FuncCtx>, f: nat, u: UpvalueInfo): (r: (seq<FuncCtx>, nat))
    requires f < |funcs|
    ensures |r.0| == |funcs| && r.1 < |r.0[f].upvalues| && r.0[f].upvalues[r.1] == u
  {
    var i := IndexOf(funcs[f].upvalues, u);
    if i < |funcs[f].upvalues| then (funcs, i)
    else (funcs[f := funcs[f].(upvalues := funcs[f].upvalues + [u])], i)
  }

  function MarkCaptured(funcs: seq<FuncCtx>, f: nat, slot: nat): seq<FuncCtx>
    requires f < |funcs| && slot < |funcs[f].locals|
  {
    var l := funcs[f].locals[slot];
    funcs[f := funcs[f].(locals := funcs[f].locals[slot := l.(captured := true)])]
  }

  function ResolveAt(funcs: seq<FuncCtx>, f: nat, x: string): (r: (seq<FuncCtx>, Option<nat>))
    requires f < |funcs|
    ensures |r.0| == |funcs|
    ensures r.1.Some? ==> r.1.value < |r.0[f].upvalues|
  {
    if f == 0 then (funcs, None)
    else
      match FindLocal(funcs[f - 1].locals, funcs[f - 1].depth, x)
      case Some(slot) =>
        var (funcs1, i) := Added(MarkCaptured(funcs, f - 1, slot), f, UpvalueInfo(true, slot));
        (funcs1, Some(i))
      case None =>
        if f - 1 == 0 then (funcs, None)
        else
          var (funcs1, outer) := ResolveAt(funcs, f - 1, x);
          if outer.None? then (funcs1, None)
          else
            var (funcs2, i) := Added(funcs1, f, UpvalueInfo(false, outer.value));
            (funcs2, Some(i))
  }

  // ----- resolution only adds -----

  /** The same functions with the same locals, up to capture marks, and more descriptors at the ends. */
  predicate Extended(before: seq<FuncCtx>, after: seq<FuncCtx>) {
    && |before| == |after|
    && forall f :: 0 <= f < |before| ==> ExtendedCtx(before[f], after[f])
  }

  predicate ExtendedCtx(before: FuncCtx, after: FuncCtx) {
    && before.depth == after.depth
    && before.upvalues <= after.upvalues
    && |before.locals| == |after.locals|
    && forall k :: 0 <= k < |before.locals| ==>
         before.locals[k].name == after.locals[k].name && before.locals[k].depth == after.locals[k].depth
  }

  lemma ExtendedTransitive(a: seq<FuncCtx>, b: seq<FuncCtx>, c: seq<FuncCtx>)
    requires Extended(a, b) && Extended(b, c)
    ensures Extended(a, c)
  {
    forall f | 0 <= f < |a|
      ensures ExtendedCtx(a[f], c[f])
    {
      assert ExtendedCtx(a[f], b[f]) && ExtendedCtx(b[f], c[f]);
    }
  }

  /** What a descriptor denotes never changes. */
  lemma {:induction false} DenotesStable(before: seq<FuncCtx>, after: seq<FuncCtx>, f: nat, i: nat)
    requires WellScoped(before) && WellScoped(after) && Extended(before, after)
    requires f < |before| && i < |before[f].upvalues|
    ensures i < |after[f].upvalues| && Denotes(after, f, i) == Denotes(before, f, i)
  {
    assert ExtendedCtx(before[f], after[f]);
    var u := before[f].upvalues[i];
    assert InfoInRange(before, f, u);
    if !u.isLocal {
      DenotesStable(before, after, f - 1, u.index);
    }
  }

  lemma AddedExtends(funcs: seq<FuncCtx>, f: nat, u: UpvalueInfo)
    requires WellScoped(funcs) && 0 < f < |funcs| && InfoInRange(funcs, f, u)
    ensures var funcs1 := Added(funcs, f, u).0;
            && WellScoped(funcs1) && Extended(funcs, funcs1)
            && forall g :: 0 <= g < |funcs| && g != f ==> funcs1[g] == funcs[g]
  {
    var funcs1 := Added(funcs, f, u).0;
    forall g, i | 0 < g < |funcs1| && 0 <= i < |funcs1[g].upvalues|
      ensures InfoInRange(funcs1, g, funcs1[g].upvalues[i])
    {
      if i < |funcs[g].upvalues| {
        assert InfoInRange(funcs, g, funcs[g].upvalues[i]);
      }
    }
  }

  lemma MarkExtends(funcs: seq<FuncCtx>, f: nat, slot: nat)
    requires WellScoped(funcs) && f < |funcs| && slot < |funcs[f].locals|
    ensures var funcs1 := MarkCaptured(funcs, f, slot);
            WellScoped(funcs1) && Extended(funcs, funcs1)
  {
    var funcs1 := MarkCaptured(funcs, f, slot);
    forall g, i | 0 < g < |funcs1| && 0 <= i < |funcs1[g].upvalues|
      ensures InfoInRange(funcs1, g, funcs1[g].upvalues[i])
    {
      assert InfoInRange(funcs, g, funcs[g].upvalues[i]);
    }
  }

  /**
   Resolution is lexical scoping: it finds a descriptor exactly when some
   enclosing function has the name, the descriptor leads to the innermost such
   variable, and every earlier descriptor still denotes what it did.
   */
  lemma {:induction false} ResolvesLexically(funcs: seq<FuncCtx>, f: nat, x: string)
    requires WellScoped(funcs) && f < |funcs|
    ensures var (after, r) := ResolveAt(funcs, f, x);
            && WellScoped(after) && Extended(funcs, after)
            && r.Some? == Lookup(funcs, f, x).Some?
            && (r.Some? ==> Some(Denotes(after, f, r.value)) == Lookup(funcs, f, x))
            && (forall g, i :: 0 <= g < |funcs| && 0 <= i < |funcs[g].upvalues| ==>
                  i < |after[g].upvalues| && Denotes(after, g, i) == Denotes(funcs, g, i))
  {
    var (after, r) := ResolveAt(funcs, f, x);
    ResolvesExtending(funcs, f, x);
    forall g, i | 0 <= g < |funcs| && 0 <= i < |funcs[g].upvalues|
      ensures i < |after[g].upvalues| && Denotes(after, g, i) == Denotes(funcs, g, i)
    {
      DenotesStable(funcs, after, g, i);
    }
  }

  lemma {:induction false} ResolvesExtending(funcs: seq<FuncCtx>, f: nat, x: string)
    requires WellScoped(funcs) && f < |funcs|
    ensures var (after, r) := ResolveAt(funcs, f, x);
            && WellScoped(after) && Extended(funcs, after)
            && r.Some? == Lookup(funcs, f, x).Some?
            && (r.Some? ==> Some(Denotes(after, f, r.value)) == Lookup(funcs, f, x))
  {
    if f > 0 {
      match FindLocal(funcs[f - 1].locals, funcs[f - 1].depth, x)
      case Some(slot) =>
        var marked := MarkCaptured(funcs, f - 1, slot);
        MarkExtends(funcs, f - 1, slot);
        AddedExtends(marked, f, UpvalueInfo(true, slot));
        ExtendedTransitive(funcs, marked, ResolveAt(funcs, f, x).0);
      case None =>
        if f - 1 > 0 {
          ResolvesExtending(funcs, f - 1, x);
          var (funcs1, outer) := ResolveAt(funcs, f - 1, x);
          if outer.Some? {
            AddedExtends(funcs1, f, UpvalueInfo(false, outer.value));
            var after := ResolveAt(funcs, f, x).0;
            ExtendedTransitive(funcs, funcs1, after);
            DenotesStable(funcs1, after, f - 1, outer.value);
          }
        }
    }
  }

  // ----- everything else the compiler does to the stack of functions -----

  datatype Step =
    | PushFunction(params: seq<string>)
    | PopFunction
    | Declare(x: string)
    | PopLocal
    | BeginScope
    | EndScope
    | Resolve(x: string)

  function Params(params: seq<string>): seq<Local> {
    seq(|params|, k requires 0 <= k < |params| => Local(params[k], 0, false))
  }

  /** How many locals remain once those at `depth` are dropped from the end. */
  function Kept(locals: seq<Local>, depth: nat): (n: nat)
    ensures n <= |locals|
  {
    if locals != [] && locals[|locals| - 1].depth == depth then Kept(locals[..|locals| - 1], depth) else |locals|
  }

  /** The innermost function after a step that concerns its scopes only. */
  function EditTop(ctx: FuncCtx, step: Step): (r: FuncCtx)
    ensures r.upvalues == ctx.upvalues
  {
    match step
    case Declare(x) => ctx.(locals := ctx.locals + [Local(x, ctx.depth, false)])
    case PopLocal => if ctx.locals == [] then ctx else ctx.(locals := ctx.locals[..|ctx.locals| - 1])
    case BeginScope => ctx.(depth := ctx.depth + 1)
    case EndScope =>
      if ctx.depth == 0 then ctx
      else ctx.(locals := ctx.locals[..Kept(ctx.locals, ctx.depth)], depth := ctx.depth - 1)
    case _ => ctx
  }

  function Take(funcs: seq<FuncCtx>, step: Step): seq<FuncCtx>
    requires funcs != []
  {
    var top := |funcs| - 1;
    match step
    case PushFunction(params) => funcs + [FuncCtx(0, Params(params), [])]
    case PopFunction => if top == 0 then funcs else funcs[..top]
    case Resolve(x) => ResolveAt(funcs, top, x).0
    case _ => funcs[top := EditTop(funcs[top], step)]
  }

  function TakeAll(funcs: seq<FuncCtx>, steps: seq<Step>): seq<FuncCtx>
    requires funcs != []
    decreases |steps|
  {
    if steps == [] then funcs
    else
      var funcs1 := Take(funcs, steps[0]);
      if funcs1 == [] then funcs else TakeAll(funcs1, steps[1..])
  }

  /** Denotations depend on the descriptors alone. */
  lemma {:induction false} SameDescriptors(a: seq<FuncCtx>, b: seq<FuncCtx>, f: nat, i: nat)
    requires WellScoped(a) && WellScoped(b) && f < |a| && f < |b| && i < |a[f].upvalues|
    requires forall g :: 0 <= g <= f ==> a[g].upvalues == b[g].upvalues
    ensures Denotes(a, f, i) == Denotes(b, f, i)
  {
    var u := a[f].upvalues[i];
    assert InfoInRange(a, f, u) && InfoInRange(b, f, u);
    if !u.isLocal {
      SameDescriptors(a, b, f - 1, u.index);
    }
  }

  /** Only the innermost function's scopes change, and nothing refers to them. */
  lemma EditScoped(funcs: seq<FuncCtx>, step: Step)
    requires funcs != [] && WellScoped(funcs)
    ensures WellScoped(funcs[|funcs| - 1 := EditTop(funcs[|funcs| - 1], step)])
  {
    var top := |funcs| - 1;
    var after := funcs[top := EditTop(funcs[top], step)];
    forall f, i | 0 < f < |after| && 0 <= i < |after[f].upvalues|
      ensures InfoInRange(after, f, after[f].upvalues[i])
    {
      assert InfoInRange(funcs, f, funcs[f].upvalues[i]);
    }
  }

  lemma PushScoped(funcs: seq<FuncCtx>, params: seq<string>)
    requires funcs != [] && WellScoped(funcs)
    ensures WellScoped(funcs + [FuncCtx(0, Params(params), [])])
  {
    var after := funcs + [FuncCtx(0, Params(params), [])];
    forall f, i | 0 < f < |after| && 0 <= i < |after[f].upvalues|
      ensures InfoInRange(after, f, after[f].upvalues[i])
    {
      assert InfoInRange(funcs, f, funcs[f].upvalues[i]);
    }
  }

  lemma PopScoped(funcs: seq<FuncCtx>)
    requires |funcs| > 1 && WellScoped(funcs)
    ensures WellScoped(funcs[..|funcs| - 1])
  {
    var after := funcs[..|funcs| - 1];
    forall f, i | 0 < f < |after| && 0 <= i < |after[f].upvalues|
      ensures InfoInRange(after, f, after[f].upvalues[i])
    {
      assert InfoInRange(funcs, f, funcs[f].upvalues[i]);
    }
  }

  /** No step changes what an existing descriptor denotes. */
  lemma StepKeepsDenotations(funcs: seq<FuncCtx>, step: Step)
    requires funcs != [] && WellScoped(funcs)
    ensures var after := Take(funcs, step);
            && after != [] && WellScoped(after)
            && forall f, i :: 0 <= f < |funcs| && f < |after| && 0 <= i < |funcs[f].upvalues| ==>
                 i < |after[f].upvalues| && Denotes(after, f, i) == Denotes(funcs, f, i)
  {
    var top, after := |funcs| - 1, Take(funcs, step);
    if step.Resolve? {
      ResolvesLexically(funcs, top, step.x);
    } else {
      if step.PushFunction? {
        PushScoped(funcs, step.params);
      } else if step.PopFunction? {
        if top > 0 {
          PopScoped(funcs);
        }
      } else {
        EditScoped(funcs, step);
      }
      forall f, i | 0 <= f < |funcs| && f < |after| && 0 <= i < |funcs[f].upvalues|
        ensures i < |after[f].upvalues| && Denotes(after, f, i) == Denotes(funcs, f, i)
      {
        SameDescriptors(funcs, after, f, i);
      }
    }
  }

  /** The invariants hold throughout every compilation. */
  lemma {:induction false} AlwaysWellScoped(steps: seq<Step>)
    ensures WellScoped(TakeAll([FuncCtx(0, [], [])], steps))
  {
    RunWellScoped([FuncCtx(0, [], [])], steps);
  }

  lemma {:induction false} RunWellScoped(funcs: seq<FuncCtx>, steps: seq<Step>)
    requires funcs != [] && WellScoped(funcs)
    ensures WellScoped(TakeAll(funcs, steps))
    decreases |steps|
  {
    if steps != [] {
      StepKeepsDenotations(funcs, steps[0]);
      RunWellScoped(Take(funcs, steps[0]), steps[1..]);
    }
  }

  // ----- scopes -----

  /** Locals of inner blocks come after those of outer ones, and none is deeper than the block at hand. */
  predicate Nested(ctx: FuncCtx) {
    && (forall i, j :: 0 <= i < j < |ctx.locals| ==> ctx.locals[i].depth <= ctx.locals[j].depth)
    && forall k :: 0 <= k < |ctx.locals| ==> ctx.locals[k].depth <= ctx.depth
  }

  predicate AllNested(funcs: seq<FuncCtx>) {
    forall f :: 0 <= f < |funcs| ==> Nested(funcs[f])
  }

  /** So it is for every function throughout every compilation. */
  lemma {:induction false} AlwaysNested(funcs: seq<FuncCtx>, steps: seq<Step>)
    requires funcs != [] && AllNested(funcs)
    ensures AllNested(TakeAll(funcs, steps))
    decreases |steps|
  {
    if steps != [] {
      StepNested(funcs, steps[0]);
      hide Take, AllNested;
      if Take(funcs, steps[0]) != [] {
        AlwaysNested(Take(funcs, steps[0]), steps[1..]);
      }
    }
  }

  lemma StepNested(funcs: seq<FuncCtx>, step: Step)
    requires funcs != [] && AllNested(funcs)
    ensures AllNested(Take(funcs, step))
  {
    hide Kept, ResolveAt;
    var top := |funcs| - 1;
    assert Nested(funcs[top]);
    if step.Resolve? {
      ResolveSameLocals(funcs, top, step.x);
      SameNested(funcs, ResolveAt(funcs, top, step.x).0);
    } else {
      EditNested(funcs[top], step);
    }
  }

  lemma EditNested(ctx: FuncCtx, step: Step)
    requires Nested(ctx)
    ensures Nested(EditTop(ctx, step))
  {
    if step.EndScope? && ctx.depth > 0 {
      OuterKept(ctx.locals, ctx.depth);
    }
    hide Kept;
  }

  lemma SameNested(before: seq<FuncCtx>, after: seq<FuncCtx>)
    requires Extended(before, after) && AllNested(before)
    ensures AllNested(after)
  {
    forall f | 0 <= f < |after|
      ensures Nested(after[f])
    {
      assert ExtendedCtx(before[f], after[f]) && Nested(before[f]);
    }
  }

  /** Resolving a name leaves all locals where they are. */
  lemma {:induction false} ResolveSameLocals(funcs: seq<FuncCtx>, f: nat, x: string)
    requires f < |funcs|
    ensures Extended(funcs, ResolveAt(funcs, f, x).0)
    decreases f
  {
    hide IndexOf;
    if f > 0 && f - 1 > 0 && FindLocal(funcs[f - 1].locals, funcs[f - 1].depth, x).None? {
      ResolveSameLocals(funcs, f - 1, x);
    }
  }

  /** What stays at the end of a block belongs to the blocks around it, and all of that stays. */
  lemma {:induction false} OuterKept(locals: seq<Local>, depth: nat)
    requires depth > 0 && Nested(FuncCtx(depth, locals, []))
    ensures forall k :: 0 <= k < |locals| ==> (k < Kept(locals, depth) <==> locals[k].depth < depth)
  {
    if locals != [] && locals[|locals| - 1].depth == depth {
      OuterKept(locals[..|locals| - 1], depth);
    }
  }

  function DeclareAll(ctx: FuncCtx, names: seq<string>): FuncCtx
    decreases |names|
  {
    if names == [] then ctx else DeclareAll(EditTop(ctx, Declare(names[0])), names[1..])
  }

  lemma {:induction false} DeclaredAre(ctx: FuncCtx, names: seq<string>)
    ensures DeclareAll(ctx, names) ==
              ctx.(locals :=
                     ctx.locals + seq(|names|, i requires 0 <= i < |names| => Local(names[i], ctx.depth, false)))
    decreases |names|
  {
    if names != [] {
      DeclaredAre(EditTop(ctx, Declare(names[0])), names[1..]);
    }
  }

  /** Whatever a block declares, its end gives back the function as it was. */
  lemma BlockUndone(ctx: FuncCtx, names: seq<string>)
    requires Nested(ctx)
    ensures EditTop(DeclareAll(EditTop(ctx, BeginScope), names), EndScope) == ctx
  {
    var inner := EditTop(ctx, BeginScope);
    DeclaredAre(inner, names);
    var all, k := DeclareAll(inner, names), |ctx.locals|;
    assert all.locals[..k] == ctx.locals;
    hide DeclareAll, Kept;
    assert forall i :: 0 <= i < k ==> all.locals[i] == ctx.locals[i];
    KeptIs(all.locals, k, all.depth);
  }

  lemma {:induction false} KeptIs(locals: seq<Local>, k: nat, depth: nat)
    requires k <= |locals| && (forall i :: 0 <= i < k ==> locals[i].depth < depth)
    requires forall i :: k <= i < |locals| ==> locals[i].depth == depth
    ensures Kept(locals, depth) == k
    decreases |locals|
  {
    if |locals| > k {
      KeptIs(locals[..|locals| - 1], k, depth);
    }
  }

  /** The variable a name is resolved to is marked as captured, so that its slot outlives its scope. */
  lemma {:induction false} CapturedMarked(funcs: seq<FuncCtx>, f: nat, x: string)
    requires WellScoped(funcs) && f < |funcs| && Lookup(funcs, f, x).Some?
    ensures var v, after := Lookup(funcs, f, x).value, ResolveAt(funcs, f, x).0;
            v.func < |after| && v.slot < |after[v.func].locals| && after[v.func].locals[v.slot].captured
    decreases f
  {
    if FindLocal(funcs[f - 1].locals, funcs[f - 1].depth, x).None? {
      CapturedMarked(funcs, f - 1, x);
    }
    hide IndexOf;
  }

  // ----- from descriptors to stack slots -----

  /**
   Where the upvalues of the `f`-th function's closure are opened, when the
   frame of each function around it starts at its base (`make_closure`): a
   local of the creating frame, or the creating closure's own upvalue.
   */
  function OpenedAt(funcs: seq<FuncCtx>, bases: seq<nat>, f: nat): (r: seq<nat>)
    requires WellScoped(funcs) && f < |funcs| && |bases| == |funcs|
    ensures |r| == |funcs[f].upvalues|
  {
    if f == 0 then []
    else
      var outer := OpenedAt(funcs, bases, f - 1);
      assert forall i :: 0 <= i < |funcs[f].upvalues| ==> InfoInRange(funcs, f, funcs[f].upvalues[i]);
      seq(|funcs[f].upvalues|, i requires 0 <= i < |funcs[f].upvalues| =>
        var u := funcs[f].upvalues[i];
        assert InfoInRange(funcs, f, u);
        if u.isLocal then bases[f - 1] + u.index else outer[u.index])
  }

  /** Compiled closures capture the slots of the variables their descriptors denote. */
  lemma {:induction false} ClosureCaptures(funcs: seq<FuncCtx>, bases: seq<nat>, f: nat, i: nat)
    requires WellScoped(funcs) && f < |funcs| && |bases| == |funcs| && i < |funcs[f].upvalues|
    ensures var v := Denotes(funcs, f, i);
            OpenedAt(funcs, bases, f)[i] == bases[v.func] + v.slot
  {
    var u := funcs[f].upvalues[i];
    assert InfoInRange(funcs, f, u);
    if !u.isLocal {
      ClosureCaptures(funcs, bases, f - 1, u.index);
    }
  }

  // ----- the compiler's methods -----

  class Resolver {
    var funcs: seq<FuncCtx>

    constructor ()
      ensures funcs == [FuncCtx(0, [], [])]
    {
      funcs := [FuncCtx(0, [], [])];
    }

    /** Search the locals of the `f`-th function backwards. */
    method LocalSlot(f: nat, x: string) returns (r: Option<nat>)
      requires f < |funcs|
      ensures r == FindLocal(funcs[f].locals, funcs[f].depth, x)
    {
      var locals, depth := funcs[f].locals, funcs[f].depth;
      var k := |locals|;
      assert locals[..k] == locals;
      while k > 0
        invariant k <= |locals| && FindLocal(locals, depth, x) == FindLocal(locals[..k], depth, x)
      {
        k := k - 1;
        assert locals[..k + 1][..k] == locals[..k];
        if locals[k].name == x && locals[k].depth <= depth {
          return Some(k);
        }
      }
      r := None;
    }

    method AddUpvalue(f: nat, isLocal: bool, index: nat) returns (i: nat)
      requires f < |funcs|
      modifies this
      ensures (funcs, i) == Added(old(funcs), f, UpvalueInfo(isLocal, index))
    {
      var u, ups := UpvalueInfo(isLocal, index), funcs[f].upvalues;
      i := 0;
      while i < |ups|
        invariant i <= |ups| && funcs == old(funcs)
        invariant forall k :: 0 <= k < i ==> ups[k] != u
      {
        if ups[i] == u {
          return;
        }
        i := i + 1;
      }
      funcs := funcs[f := funcs[f].(upvalues := ups + [u])];
    }

    method ResolveUpvalueAt(f: nat, x: string) returns (r: Option<nat>)
      requires f < |funcs|
      modifies this
      ensures (funcs, r) == ResolveAt(old(funcs), f, x)
      decreases f
    {
      if f == 0 {
        return None;
      }
      var slot := LocalSlot(f - 1, x);
      if slot.Some? {
        var ctx := funcs[f - 1];
        var l := ctx.locals[slot.value];
        funcs := funcs[f - 1 := ctx.(locals := ctx.locals[slot.value := l.(captured := true)])];
        var i := AddUpvalue(f, true, slot.value);
        return Some(i);
      }
      if f - 1 > 0 {
        var outer := ResolveUpvalueAt(f - 1, x);
        if outer.Some? {
          var i := AddUpvalue(f, false, outer.value);
          return Some(i);
        }
      }
      r := None;
    }

    /** Resolve a name in the function being compiled. */
    method ResolveUpvalue(x: string) returns (r: Option<nat>)
      requires funcs != [] && WellScoped(funcs)
      modifies this
      ensures |funcs| == |old(funcs)| && WellScoped(funcs)
      ensures var top := |funcs| - 1;
              && (r.Some? <==> Lookup(old(funcs), top, x).Some?)
              && (r.Some? ==> r.value < |funcs[top].upvalues|
                              && Some(Denotes(funcs, top, r.value)) == Lookup(old(funcs), top, x))
    {
      var top := |funcs| - 1;
      ResolvesExtending(funcs, top, x);
      if top == 0 {
        return None;
      }
      r := ResolveUpvalueAt(top, x);
    }
  }
}
