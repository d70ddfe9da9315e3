/**
 The ROS arguments of a node: a list term turned into an argument vector in native memory, with every
 allocation undone when a later one fails, and given back after use. Addresses name live blocks; a
 freed address is not reused, so a second free of a block cannot go unnoticed.
 */
module RosArgs {
  import opened Wrappers

  type Byte = b: int | 0 <= b < 256

  /** A pointer array starts out uninitialized. */
  datatype Block = Pointers(slots: seq<Option<nat>>) | Bytes(data: seq<Byte>)

  type Blocks = map<nat, Block>

  /** An element of the list, if it is an iolist: its bytes. */
  type Arg = Option<seq<Byte>>

  predicate AllBinaries(args: seq<Arg>) {
    forall i | 0 <= i < |args| :: args[i].Some?
  }

  ghost predicate Distinct(ptrs: seq<nat>) {
    forall i, j | 0 <= i < j < |ptrs| :: ptrs[i] != ptrs[j]
  }

  /** heap is base with an argument vector at a whose first |ptrs| pointers are set, to terminated copies of args. */
  ghost predicate Laid(base: Blocks, heap: Blocks, a: nat, length: nat, ptrs: seq<nat>, args: seq<Arg>) {
    && |ptrs| <= length && |ptrs| <= |args|
    && a !in base && a !in ptrs && Distinct(ptrs)
    && (forall p :: p in heap <==> p in base || p == a || p in ptrs)
    && (forall p | p in base :: p !in ptrs && heap[p] == base[p])
    && heap[a].Pointers? && |heap[a].slots| == length
    && forall i | 0 <= i < |ptrs| :: heap[a].slots[i] == Some(ptrs[i]) && CopiedTo(heap, ptrs[i], args[i])
  }

  ghost predicate CopiedTo(heap: Blocks, p: nat, arg: Arg) {
    arg.Some? && p in heap && heap[p] == Bytes(arg.value + [0])
  }

  /** Storing the next copy, at a fresh address. */
  lemma LaidExtends(base: Blocks, heap: Blocks, a: nat, length: nat, ptrs: seq<nat>, args: seq<Arg>, p: nat)
    requires Laid(base, heap, a, length, ptrs, args) && |ptrs| < length && |ptrs| < |args|
    requires args[|ptrs|].Some? && p !in heap
    ensures var copied := heap[p := Bytes(args[|ptrs|].value + [0])];
            var stored := copied[a := Pointers(heap[a].slots[|ptrs| := Some(p)])];
            Laid(base, stored, a, length, ptrs + [p], args)
  {
  }

  /** What a successful call returns and leaves behind. */
  ghost predicate Parsed(base: Blocks, heap: Blocks, args: seq<Arg>, argc: nat, argv: Option<nat>) {
    && argc == |args|
    && if args == [] then argv.None? && heap == base
       else argv.Some? && exists ptrs :: |ptrs| == |args| && Laid(base, heap, argv.value, |args|, ptrs, args)
  }

  /** Allocations first to last - 1 all succeed. */
  ghost predicate AllSucceed(plan: nat -> bool, first: nat, last: nat) {
    forall k | first <= k < last :: plan(k)
  }

  class Heap {
    var blocks: Blocks
    /** The address of the next block, and the number of allocations asked for so far. */
    var next: nat
    /** Which allocations succeed. */
    const plan: nat -> bool

    constructor (plan: nat -> bool)
      ensures Valid() && blocks == map[] && next == 0 && this.plan == plan
    {
      blocks, next, this.plan := map[], 0, plan;
    }

    ghost predicate Valid()
      reads this
    {
      forall p | p in blocks :: p < next
    }

    method Alloc(block: Block) returns (p: Option<nat>)
      requires Valid()
      modifies this
      ensures Valid() && next == old(next) + 1
      ensures p.Some? <==> plan(old(next))
      ensures p.None? ==> blocks == old(blocks)
      ensures p.Some? ==> p.value !in old(blocks) && blocks == old(blocks)[p.value := block]
    {
      if plan(next) {
        blocks := blocks[next := block];
        p := Some(next);
      } else {
        p := None;
      }
      next := next + 1;
    }

    /** Only a live block may be freed. */
    method Free(p: nat)
      requires Valid() && p in blocks
      modifies this
      ensures Valid() && next == old(next) && blocks == old(blocks) - {p}
    {
      blocks := blocks - {p};
    }

    /** Frees the first n strings of an argument vector and then the vector itself. */
    method FreeVector(
      n: nat, argv: nat, ghost base: Blocks, ghost length: nat, ghost ptrs: seq<nat>, ghost args: seq<Arg>)
      requires Valid() && |ptrs| == n && Laid(base, blocks, argv, length, ptrs, args)
      modifies this
      ensures Valid() && next == old(next) && blocks == base
    {
      var j := 0;
      while j < n
        invariant 0 <= j <= n && Valid() && next == old(next)
        invariant forall p :: p in blocks <==> p in base || p == argv || p in ptrs[j..]
        invariant forall p | p in blocks :: p in old(blocks) && blocks[p] == old(blocks)[p]
      {
        assert ptrs[j] in ptrs[j..];
        Free(blocks[argv].slots[j].value);
        assert ptrs[j] !in ptrs[j + 1..];
        j := j + 1;
      }
      Free(argv);
    }

    /** Copies one element, with a terminator, and notes the copy in the vector. */
    method StoreArg(
      arg: Arg, i: nat, a: nat, ghost base: Blocks, ghost length: nat, ghost ptrs: seq<nat>, ghost args: seq<Arg>)
      returns (ok: bool, ghost more: seq<nat>)
      requires Valid() && Laid(base, blocks, a, length, ptrs, args)
      requires |ptrs| == i < length == |args| && arg == args[i]
      modifies this
      ensures Valid() && next == old(next) + (if arg.Some? then 1 else 0)
      ensures ok <==> arg.Some? && plan(old(next))
      ensures ok ==> |more| == i + 1 && Laid(base, blocks, a, length, more, args)
      ensures !ok ==> blocks == old(blocks)
    {
      more := ptrs;
      if arg.None? {
        return false, more;
      }
      var text := Alloc(Bytes(arg.value + [0]));
      if text.None? {
        return false, more;
      }
      LaidExtends(base, old(blocks), a, length, ptrs, args, text.value);
      blocks := blocks[a := Pointers(blocks[a].slots[i := text])];
      more := ptrs + [text.value];
      ok := true;
    }

    /**
     Succeeds exactly when the term is a list of iolists and no allocation fails; a failure at any point
     leaves the heap as it was.
     */
    method ParseRosArgs(term: Option<seq<Arg>>) returns (ok: bool, argc: nat, argv: Option<nat>)
      requires Valid()
      modifies this
      ensures Valid()
      ensures ok <==>
        && term.Some?
        && (term.value != [] ==>
          && AllBinaries(term.value)
          && AllSucceed(plan, old(next), old(next) + |term.value| + 1))
      ensures !ok ==> blocks == old(blocks)
      ensures ok ==> Parsed(old(blocks), blocks, term.value, argc, argv)
    {
      if term.None? {
        return false, 0, None;
      }
      var args := term.value;
      var length := |args|;
      if length == 0 {
        return true, 0, None;
      }
      ghost var base := blocks;
      var vector := Alloc(Pointers(seq(length, _ => None)));
      if vector.None? {
        assert !plan(old(next));
        return false, 0, None;
      }
      var a := vector.value;
      ghost var ptrs: seq<nat> := [];
      var i := 0;
      while i < length
        invariant 0 <= i <= length && Valid() && next == old(next) + 1 + i && |ptrs| == i
        invariant Laid(base, blocks, a, length, ptrs, args)
        invariant AllSucceed(plan, old(next), next)
        invariant forall k | 0 <= k < i :: args[k].Some?
      {
        var stored;
        ghost var more;
        stored, more := StoreArg(args[i], i, a, base, length, ptrs, args);
        if !stored {
          assert args[i].Some? ==> !plan(old(next) + i + 1);
          FreeVector(i, a, base, length, ptrs, args);
          return false, 0, None;
        }
        ptrs := more;
        i := i + 1;
      }
      return true, length, Some(a);
    }

    /** Gives back everything a successful parse allocated: each block is freed once, and nothing else. */
    method FreeRosArgs(argc: nat, argv: Option<nat>, ghost base: Blocks, ghost args: seq<Arg>)
      requires Valid() && Parsed(base, blocks, args, argc, argv)
      modifies this
      ensures Valid() && blocks == base
    {
      if argv.None? {
        return;
      }
      ghost var ptrs :| |ptrs| == |args| && Laid(base, blocks, argv.value, |args|, ptrs, args);
      FreeVector(argc, argv.value, base, |args|, ptrs, args);
    }

    /** The use a node makes of its arguments leaves the heap as it was, whatever fails on the way. */
    method WithRosArgs(term: Option<seq<Arg>>) returns (ok: bool)
      requires Valid()
      modifies this
      ensures Valid() && blocks == old(blocks)
    {
      var argc, argv;
      ok, argc, argv := ParseRosArgs(term);
      if ok && argc > 0 {
        FreeRosArgs(argc, argv, old(blocks), term.value);
      }
    }
  }

  function Elements(ptrs: seq<nat>): (r: set<nat>)
    ensures forall p :: p in r <==> p in ptrs
  {
    if ptrs == [] then {} else Elements(ptrs[..|ptrs| - 1]) + {ptrs[|ptrs| - 1]}
  }

  lemma {:induction false} DistinctCount(ptrs: seq<nat>)
    requires Distinct(ptrs)
    ensures |Elements(ptrs)| == |ptrs|
  {
    if ptrs != [] {
      var (front, last) := (ptrs[..|ptrs| - 1], ptrs[|ptrs| - 1]);
      DistinctCount(front);
      assert last !in front;
    }
  }

  lemma NewKeys(base: set<nat>, heap: set<nat>, a: nat, ptrs: seq<nat>)
    requires a !in base && a !in ptrs && Distinct(ptrs)
    requires forall p :: p in heap <==> p in base || p == a || p in ptrs
    requires forall p | p in base :: p !in ptrs
    ensures |heap - base| == |ptrs| + 1
  {
    DistinctCount(ptrs);
    assert heap - base == Elements(ptrs) + {a};
  }

  /** A successful parse of a nonempty list leaves exactly one block per element and one for the vector. */
  lemma BlocksAllocated(base: Blocks, heap: Blocks, args: seq<Arg>, argc: nat, argv: Option<nat>)
    requires Parsed(base, heap, args, argc, argv) && args != []
    ensures |heap.Keys - base.Keys| == |args| + 1
    ensures argv.value in heap && heap[argv.value].Pointers? && |heap[argv.value].slots| == |args|
    ensures forall i | 0 <= i < |args| ::
              && heap[argv.value].slots[i].Some?
              && CopiedTo(heap, heap[argv.value].slots[i].value, args[i])
  {
    var ptrs :| |ptrs| == |args| && Laid(base, heap, argv.value, |args|, ptrs, args);
    NewKeys(base.Keys, heap.Keys, argv.value, ptrs);
  }
}
