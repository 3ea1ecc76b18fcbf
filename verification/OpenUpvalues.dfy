/**
 The machine's list of open upvalues (`src/vm/closure.rs` and
 `make_closure`, `insert_open_upvalue`, `close_upvalues_above` in
 `src/vm/vm.rs`), against the operations of `Upvalues`.
 */
module OpenUpvalues {
  import opened Values
  import opened Upvalues

  class Upvalue {
    var state: UpvalueState

    constructor (index: nat)
      ensures state == Open(index)
    {
      state := Open(index);
    }

    method Read(stack: seq<Value>) returns (v: Value)
      requires state.Open? ==> state.index < |stack|
      ensures v == if state.Open? then stack[state.index] else state.v
    {
      match state
      case Open(i) => v := stack[i];
      case Closed(own) => v := own;
    }

    /** The stack after the write: an open upvalue writes to its slot. */
    method Write(stack: seq<Value>, v: Value) returns (after: seq<Value>)
      requires state.Open? ==> state.index < |stack|
      modifies this
      ensures state == if old(state).Open? then old(state) else Closed(v)
      ensures after == if old(state).Open? then stack[old(state).index := v] else stack
    {
      after := stack;
      match state
      case Open(i) => after := stack[i := v];
      case Closed(_) => state := Closed(v);
    }

    method CloseIfAtOrAbove(stack: seq<Value>, floor: nat) returns (closed: bool)
      requires state.Open? ==> state.index < |stack|
      modifies this
      ensures state == CloseAbove(old(state), stack, floor)
      ensures closed == (old(state).Open? && old(state).index >= floor)
    {
      closed := false;
      if state.Open? && state.index >= floor {
        state := Closed(stack[state.index]);
        closed := true;
      }
    }
  }

  ghost predicate Descending(list: seq<Upvalue>)
    reads list
  {
    forall i, j :: 0 <= i < j < |list| ==>
      && list[i] != list[j] && list[i].state.Open? && list[j].state.Open?
      && list[i].state.index >= list[j].state.index
  }

  /** Inserting before the first element of a lower slot. */
  lemma Inserted(list: seq<Upvalue>, p: nat, u: Upvalue)
    requires p <= |list| && u !in list && Descending(list) && u.state.Open?
    requires forall w :: w in list ==> w.state.Open?
    requires forall i :: 0 <= i < p ==> list[i].state.index >= u.state.index
    requires p < |list| ==> list[p].state.index < u.state.index
    ensures var after := list[..p] + [u] + list[p..];
            Descending(after) && forall w :: w in after <==> w in list || w == u
  {
    var after := list[..p] + [u] + list[p..];
    forall i, j | 0 <= i < j < |after|
      ensures after[i] != after[j] && after[i].state.Open? && after[j].state.Open?
      ensures after[i].state.index >= after[j].state.index
    {
      var oi, oj := if i < p then i else i - 1, if j < p then j else j - 1;
      assert i != p ==> after[i] == list[oi];
      assert j != p ==> after[j] == list[oj];
      if i == p {
        assert list[p].state.index >= list[oj].state.index;
      }
    }
    SameMembers(list, p, u);
  }

  lemma SameMembers(list: seq<Upvalue>, p: nat, u: Upvalue)
    requires p <= |list|
    ensures forall w :: w in list[..p] + [u] + list[p..] <==> w in list || w == u
  {
    assert list == list[..p] + list[p..];
  }

  /** Removing an element of a list without repetitions. */
  lemma Removed(list: seq<Upvalue>, i: nat)
    requires i < |list| && Descending(list)
    ensures Descending(list[..i] + list[i + 1..])
    ensures forall u :: u in list[..i] + list[i + 1..] <==> u in list && u != list[i]
  {
    var after := list[..i] + list[i + 1..];
    assert forall k :: 0 <= k < |after| ==> after[k] == list[if k < i then k else k + 1];
    RemovedMembers(list, i);
    hide *;
    RemovedDescends(list, i, after);
  }

  lemma RemovedDescends(list: seq<Upvalue>, i: nat, after: seq<Upvalue>)
    requires i < |list| && Descending(list) && |after| == |list| - 1
    requires forall k :: 0 <= k < |after| ==> after[k] == list[if k < i then k else k + 1]
    ensures Descending(after)
  {
    forall j, k | 0 <= j < k < |after|
      ensures after[j] != after[k] && after[j].state.Open? && after[k].state.Open?
      ensures after[j].state.index >= after[k].state.index
    {
      var oj, ok := if j < i then j else j + 1, if k < i then k else k + 1;
      assert after[j] == list[oj] && after[k] == list[ok] && oj < ok;
    }
  }

  lemma RemovedMembers(list: seq<Upvalue>, i: nat)
    requires i < |list|
    requires forall j, k :: 0 <= j < k < |list| ==> list[j] != list[k]
    ensures forall u :: u in list[..i] + list[i + 1..] <==> u in list && u != list[i]
  {
    var after := list[..i] + list[i + 1..];
    assert list == list[..i] + [list[i]] + list[i + 1..];
    assert list[i] !in list[..i] && list[i] !in list[i + 1..];
  }

  class VmCtx {
    var stack: seq<Value>
    var openUpvalues: seq<Upvalue>
    ghost var all: set<Upvalue>

    /** Every open upvalue is on the list, once, topmost slot first, and is for a slot below `top`. */
    ghost predicate ValidBelow(top: nat)
      reads this, all
    {
      && (forall u :: u in openUpvalues ==> u in all && u.state.Open?)
      && Descending(openUpvalues)
      && (forall u :: u in all && u.state.Open? ==> u in openUpvalues && u.state.index < top)
    }

    /** All slots of open upvalues are on the stack. */
    ghost predicate Valid()
      reads this, all
    {
      ValidBelow(|stack|)
    }

    ghost function Snapshot(): Ctx<Upvalue>
      reads this, all
    {
      Ctx(stack, map u | u in all :: u.state)
    }

    constructor ()
      ensures Valid() && Snapshot() == Ctx([], map[])
    {
      stack, openUpvalues, all := [], [], {};
    }

    /** The value pushed may fill a slot that was captured before it was there. */
    method PushValue(v: Value)
      requires ValidBelow(|stack| + 1)
      modifies `stack
      ensures Valid() && Snapshot() == old(Snapshot()).(stack := old(stack) + [v])
    {
      stack := stack + [v];
    }

    /**
     Capture a slot: always a new upvalue, even if the slot has one already, and even if the slot is the one that the
     closure itself will fill.
     */
    method Capture(slot: nat) returns (u: Upvalue)
      requires Valid()
      modifies `openUpvalues, `all
      ensures ValidBelow(if slot < |stack| then |stack| else slot + 1) && fresh(u) && all == old(all) + {u}
      ensures Snapshot() == old(Snapshot()).(ups := old(Snapshot()).ups[u := Open(slot)])
    {
      u := new Upvalue(slot);
      InsertOpenUpvalue(u);
      all := all + {u};
    }

    /** A local function that captures itself: the closure fills the slot it has captured, and reads itself there. */
    method PushCapturing(v: Value) returns (u: Upvalue)
      requires Valid()
      modifies this
      ensures Valid() && fresh(u) && all == old(all) + {u}
      ensures Snapshot() == Ctx(old(stack) + [v], old(Snapshot()).ups[u := Open(|old(stack)|)])
      ensures Upvalues.Read(Snapshot(), u) == Some(v)
    {
      u := Capture(|stack|);
      PushValue(v);
    }

    /** Insert keeping the list sorted by slot, topmost first. */
    method InsertOpenUpvalue(u: Upvalue)
      requires u.state.Open? && u !in openUpvalues && Descending(openUpvalues)
      requires forall w :: w in openUpvalues ==> w.state.Open?
      modifies `openUpvalues
      ensures Descending(openUpvalues)
      ensures forall w :: w in openUpvalues <==> w in old(openUpvalues) || w == u
    {
      var p := 0;
      while p < |openUpvalues| && openUpvalues[p].state.index >= u.state.index
        invariant p <= |openUpvalues|
        invariant forall i :: 0 <= i < p ==> openUpvalues[i].state.index >= u.state.index
      {
        p := p + 1;
      }
      Inserted(openUpvalues, p, u);
      openUpvalues := openUpvalues[..p] + [u] + openUpvalues[p..];
    }

    /** Close one upvalue of the list if it is at or above `floor`, and drop it from the list. */
    method CloseAt(i: nat, floor: nat) returns (closed: bool)
      requires Valid() && i < |openUpvalues|
      modifies `openUpvalues, openUpvalues[i]
      ensures Valid() && closed == (old(openUpvalues[i].state.index) >= floor)
      ensures var u := old(openUpvalues[i]); u.state == CloseAbove(old(u.state), stack, floor)
      ensures openUpvalues == if closed then old(openUpvalues[..i] + openUpvalues[i + 1..]) else old(openUpvalues)
    {
      Removed(openUpvalues, i);
      ghost var others := openUpvalues[..i] + openUpvalues[i + 1..];
      closed := openUpvalues[i].CloseIfAtOrAbove(stack, floor);
      hide Descending;
      if closed {
        openUpvalues := openUpvalues[..i] + openUpvalues[i + 1..];
        assert openUpvalues == others;
      }
    }

    /** Close the upvalues at or above `floor` and drop them from the list. */
    method CloseUpvaluesAbove(floor: nat)
      requires Valid()
      modifies `openUpvalues, all
      ensures Valid()
      ensures forall u :: u in all ==> u.state == CloseAbove(old(u.state), stack, floor)
    {
      hide Descending;
      var i := 0;
      while i < |openUpvalues|
        invariant i <= |openUpvalues| && Valid() && all == old(all)
        invariant forall k :: 0 <= k < i ==> openUpvalues[k].state.index < floor
        invariant forall u :: u in all ==>
                    u.state == old(u.state) || u.state == CloseAbove(old(u.state), stack, floor)
        decreases |openUpvalues| - i
      {
        var closed := CloseAt(i, floor);
        if !closed {
          i := i + 1;
        }
      }
    }

    /** End of a block: close what is cut off, cut it off, and put the value back. */
    method PopLocalKeep(n: nat)
      requires Valid() && n < |stack|
      requires forall u :: u in all && u.state.Open? ==> u.state.index < |stack| - 1
      modifies this, all
      ensures Valid() && all == old(all)
      ensures var len := |old(stack)| - 1;
              var cut := CutTo(Ctx(old(stack)[..len], old(Snapshot()).ups), len - n);
              Snapshot() == cut.(stack := cut.stack + [old(stack)[len]])
    {
      hide Descending;
      var top := stack[|stack| - 1];
      stack := stack[..|stack| - 1];
      var len := |stack| - n;
      CutBelow(len);
      stack := stack + [top];
    }

    /** Close what is cut off, and cut it off. */
    method CutBelow(floor: nat)
      requires Valid() && floor <= |stack|
      modifies this, all
      ensures Valid() && all == old(all) && stack == old(stack)[..floor]
      ensures Snapshot() == CutTo(old(Snapshot()), floor)
    {
      hide Descending;
      CloseUpvaluesAbove(floor);
      stack := stack[..floor];
    }

    /** Return from the frame whose slots start at `base`. */
    method ReturnFromFrame(base: nat, ret: Value)
      requires Valid() && base <= |stack|
      modifies this, all
      ensures Valid() && all == old(all)
      ensures var cut := CutTo(old(Snapshot()), base);
              Snapshot() == cut.(stack := cut.stack + [ret])
    {
      hide Descending;
      CutBelow(base);
      stack := stack + [ret];
    }

    method LoadUpvalue(u: Upvalue) returns (v: Value)
      requires Valid() && u in all
      ensures Upvalues.Read(Snapshot(), u) == Some(v)
    {
      v := u.Read(stack);
    }

    method AssignUpvalue(u: Upvalue, v: Value)
      requires Valid() && u in all
      modifies `stack, u
      ensures Valid() && Snapshot() == Upvalues.Write(old(Snapshot()), u, v)
    {
      ghost var before := Snapshot();
      stack := u.Write(stack, v);
      assert Snapshot().ups == if before.ups[u].Open? then before.ups else before.ups[u := Closed(v)];
    }
  }
}
