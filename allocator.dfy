/**
 * The allocation hooks handed to meshoptimizer (lines 64, 76-83). A single global
 * slot `LAYOUT` records the layout of the most recent allocation; deallocation frees
 * with whatever layout the slot holds, whichever pointer it is given, and panics when
 * the slot is still empty. Only this bookkeeping is modelled, not the memory.
 */
module Allocator {
  import opened Wrappers

  /** `isize::MAX` on the 32-bit WebAssembly target the crate is built for. */
  const IsizeMax: nat := 0x7FFF_FFFF

  datatype Layout = Layout(size: nat, align: nat)

  /** Why a hook stops; in the source each of these is a panic from `unwrap`. */
  datatype AllocError =
    | LayoutOverflow   // `Layout::from_size_align(size, 1)` rejected the size
    | NoLayout         // `meshopt_dealloc` ran while `LAYOUT` was `None`

  /** One call the library makes into the hooks; the pointer of a deallocation is opaque. */
  datatype Call = AllocCall(size: nat) | DeallocCall(ptr: nat)

  /**
   * `Layout::from_size_align(size, 1)`: with alignment 1, a size is accepted exactly
   * when it does not exceed `isize::MAX`.
   */
  function LayoutFor(size: nat): (r: Result<Layout, AllocError>)
    ensures r.Ok? <==> size <= IsizeMax
    ensures r.Ok? ==> r.value == Layout(size, 1)
    ensures r.Err? ==> r.error == LayoutOverflow
  {
    if size <= IsizeMax then Ok(Layout(size, 1)) else Err(LayoutOverflow)
  }

  /** The layout `meshopt_dealloc` frees with when the slot holds `slot`. */
  function DeallocLayout(slot: Option<Layout>): (r: Result<Layout, AllocError>)
    ensures r.Ok? <==> slot.Some?
    ensures r.Ok? ==> slot == Some(r.value)
    ensures r.Err? ==> r.error == NoLayout
  {
    match slot
    case None => Err(NoLayout)
    case Some(l) => Ok(l)
  }

  /** The slot after one call, or the panic that call raises. */
  function Step(slot: Option<Layout>, call: Call): (r: Result<Option<Layout>, AllocError>)
    ensures r.Err? <==> (call.AllocCall? && call.size > IsizeMax) || (call.DeallocCall? && slot.None?)
    ensures r.Ok? && call.AllocCall? ==> r.value == Some(Layout(call.size, 1))
    ensures r.Ok? && call.DeallocCall? ==> r.value == slot
  {
    match call
    case AllocCall(size) =>
      (match LayoutFor(size)
       case Ok(l) => Ok(Some(l))
       case Err(e) => Err(e))
    case DeallocCall(_) =>
      (match DeallocLayout(slot)
       case Ok(_) => Ok(slot)
       case Err(e) => Err(e))
  }

  /**
   * The slot after a sequence of calls, stopping at the first panic. Only an oversized
   * allocation can raise the overflow panic, and deallocations alone never change a
   * recorded slot.
   */
  function Run(slot: Option<Layout>, calls: seq<Call>): (r: Result<Option<Layout>, AllocError>)
    ensures r.Err? && r.error == LayoutOverflow ==>
      exists i :: 0 <= i < |calls| && calls[i].AllocCall? && calls[i].size > IsizeMax
    ensures slot.Some? && (forall i :: 0 <= i < |calls| ==> calls[i].DeallocCall?) ==> r == Ok(slot)
    decreases |calls|
  {
    if calls == [] then Ok(slot)
    else
      match Step(slot, calls[0])
      case Err(e) => Err(e)
      case Ok(next) =>
        var r := Run(next, calls[1..]);
        assert forall i :: 0 <= i < |calls| - 1 ==> calls[1..][i] == calls[i + 1];
        r
  }

  /** Reference definition: the size of the last allocation among `calls`, if any. */
  function LastAllocSize(calls: seq<Call>): (r: Option<nat>)
    ensures r.Some? <==> exists i :: 0 <= i < |calls| && calls[i].AllocCall?
    ensures r.Some? ==>
      exists i :: 0 <= i < |calls| && calls[i] == AllocCall(r.value) && (forall j :: i < j < |calls| ==> calls[j].DeallocCall?)
    decreases |calls|
  {
    if calls == [] then None
    else
      var last := calls[|calls| - 1];
      if last.AllocCall? then Some(last.size)
      else
        var r := LastAllocSize(calls[..|calls| - 1]);
        assert forall i :: 0 <= i < |calls| - 1 ==> calls[..|calls| - 1][i] == calls[i];
        r
  }

  /** The hooks' shared state: the `static mut LAYOUT` slot. */
  class MeshoptAllocator {
    var layout: Option<Layout>

    /** `LAYOUT` starts out as `None`. */
    constructor ()
      ensures layout == None
    {
      layout := None;
    }

    /**
     * `meshopt_alloc(size)`: records the layout of the request in the slot and
     * returns it (the memory it allocates with it is not modelled). A rejected size
     * panics before the slot is written.
     */
    method Alloc(size: nat) returns (r: Result<Layout, AllocError>)
      modifies this
      ensures r.Ok? <==> size <= IsizeMax
      ensures r.Ok? ==> r.value == Layout(size, 1) && layout == Some(r.value)
      ensures r.Err? ==> r.error == LayoutOverflow && layout == old(layout)
      ensures Step(old(layout), AllocCall(size)) == if r.Ok? then Ok(layout) else Err(r.error)
    {
      r := LayoutFor(size);
      if r.Ok? {
        layout := Some(r.value);
      }
    }

    /**
     * `meshopt_dealloc(ptr)`: the layout it frees `ptr` with, which is the recorded
     * one whatever `ptr` is; it panics when nothing was recorded. The slot is only read.
     */
    method Dealloc(ptr: nat) returns (r: Result<Layout, AllocError>)
      ensures r.Ok? <==> layout.Some?
      ensures r.Ok? ==> r.value == layout.value
      ensures r.Err? ==> r.error == NoLayout
      ensures Step(layout, DeallocCall(ptr)) == if r.Ok? then Ok(layout) else Err(r.error)
    {
      r := DeallocLayout(layout);
    }
  }

  /** Running two call sequences one after the other is running their concatenation. */
  lemma {:induction false} RunAppend(slot: Option<Layout>, calls: seq<Call>, more: seq<Call>)
    ensures Run(slot, calls + more) ==
      match Run(slot, calls)
      case Err(e) => Err(e)
      case Ok(s) => Run(s, more)
    decreases |calls|
  {
    if calls == [] {
      assert calls + more == more;
    } else {
      assert (calls + more)[0] == calls[0];
      assert (calls + more)[1..] == calls[1..] + more;
      match Step(slot, calls[0])
      case Err(e) =>
      case Ok(next) => RunAppend(next, calls[1..], more);
    }
  }

  /**
   * Whatever the calls, when none of them panicked the slot holds the layout of the
   * last allocation, or what it held before when there was none.
   */
  lemma {:induction false} RunRecordsLastAlloc(slot: Option<Layout>, calls: seq<Call>)
    requires Run(slot, calls).Ok?
    ensures Run(slot, calls).value ==
      match LastAllocSize(calls)
      case Some(n) => Some(Layout(n, 1))
      case None => slot
    decreases |calls|
  {
    if calls != [] {
      var init, last := calls[..|calls| - 1], calls[|calls| - 1];
      assert calls == init + [last];
      RunAppend(slot, init, [last]);
      RunRecordsLastAlloc(slot, init);
    }
  }

  /**
   * A deallocation after `calls`, started from the empty slot, succeeds exactly when
   * an allocation came before it, and then frees with the size of the most recent
   * allocation, whatever pointer it is given.
   */
  lemma DeallocUsesLastAlloc(calls: seq<Call>, ptr: nat)
    requires Run(None, calls).Ok?
    ensures Run(None, calls + [DeallocCall(ptr)]).Ok? <==> LastAllocSize(calls).Some?
    ensures LastAllocSize(calls).Some? ==>
      DeallocLayout(Run(None, calls).value) == Ok(Layout(LastAllocSize(calls).value, 1))
  {
    RunAppend(None, calls, [DeallocCall(ptr)]);
    RunRecordsLastAlloc(None, calls);
  }

  /** Deallocations neither change the slot nor depend on their pointer. */
  lemma DeallocIgnoresPointer(slot: Option<Layout>, p: nat, q: nat)
    ensures Step(slot, DeallocCall(p)) == Step(slot, DeallocCall(q))
    ensures Step(slot, DeallocCall(p)).Ok? ==> Step(slot, DeallocCall(p)).value == slot
  {
  }

  /** A deallocation before any allocation panics, because `LAYOUT` starts as `None`. */
  lemma DeallocFirstPanics(ptr: nat, rest: seq<Call>)
    ensures Run(None, [DeallocCall(ptr)] + rest) == Err(NoLayout)
  {
    RunAppend(None, [DeallocCall(ptr)], rest);
  }

  /**
   * The single slot is shared by overlapping allocations: after allocating `a` and then
   * `b`, freeing the first block uses size `b`, not `a`.
   */
  lemma OverlappingAllocationsShareSlot(a: nat, b: nat)
    requires a <= IsizeMax && b <= IsizeMax
    ensures Run(None, [AllocCall(a), AllocCall(b)]) == Ok(Some(Layout(b, 1)))
    ensures DeallocLayout(Run(None, [AllocCall(a), AllocCall(b)]).value) == Ok(Layout(b, 1))
  {
    var calls := [AllocCall(a), AllocCall(b)];
    assert calls[1..] == [AllocCall(b)];
    assert Step(None, calls[0]) == Ok(Some(Layout(a, 1)));
    assert Run(Some(Layout(a, 1)), [AllocCall(b)]) == Run(Some(Layout(b, 1)), []);
  }
}
