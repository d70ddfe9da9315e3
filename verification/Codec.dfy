/**
 The generated message codec. Every message has a pair of native functions: one reads an Erlang term
 into the C struct field by field, the other builds a term from the struct. The generator emits the
 same code for the same field type wherever it occurs, so both are written once here, directed by a
 schema with one constructor for each kind of code it emits.
 */
module Codec {
  type Byte = b: int | 0 <= b < 256

  datatype Num = NaN | PosInf | NegInf | Finite(r: real)

  /** Erlang terms; floats are always finite, OtherT is anything else (also an improper list). */
  datatype Term =
    | IntT(i: int)
    | FloatT(r: real)
    | AtomT(name: string)
    | BinT(bytes: seq<Byte>)
    | TupleT(elems: seq<Term>)
    | ListT(items: seq<Term>)
    | OtherT

  datatype Width = W8 | W16 | W32 | W64

  datatype Prim =
    | IntS(width: Width, signed: bool)
    | FloatS(single: bool)
    | BoolS
    | StringS
    | BoundedS(bound: nat)
    | BytesS(n: nat)

  /** The size of a fixed array; the message language has no empty ones. */
  type Size = n: nat | 0 < n witness 1

  /**
   StringS is any field that takes a whole binary: a string, or a sequence of uint8. BytesS is a fixed array of
   uint8, ArrayS a fixed array of another primitive, SeqS a sequence of anything but uint8.
   */
  datatype Schema = Leaf(prim: Prim) | StructS(fields: seq<Schema>) | SeqS(elem: Schema) | ArrayS(n: Size, cell: Prim)

  /** The narrowing of a double to a float; the claims hold for every such function. */
  type Narrow = real -> Num

  // ---------- C integers ----------

  function Modulus(w: Width): int {
    match w
    case W8 => 0x100
    case W16 => 0x1_0000
    case W32 => 0x1_0000_0000
    case W64 => 0x1_0000_0000_0000_0000
  }

  predicate InRange(w: Width, signed: bool, i: int) {
    if signed then -Modulus(w) / 2 <= i < Modulus(w) / 2 else 0 <= i < Modulus(w)
  }

  /** The width the term is read at: there is no reader below 32 bits. */
  function ReadWidth(w: Width): Width {
    if w == W64 then W64 else W32
  }

  /** The value left after assigning i to an integer field. */
  function Wrap(w: Width, signed: bool, i: int): int {
    var r := i % Modulus(w);
    if signed && r >= Modulus(w) / 2 then r - Modulus(w) else r
  }

  // ---------- message memory ----------

  /** An access path: the i-th field of a struct or the i-th element of a sequence, repeatedly. */
  type Path = seq<nat>

  datatype Cell = IntC(i: int) | NumC(n: Num) | BoolC(b: bool) | BytesC(bytes: seq<Byte>) | SizeC(size: nat)

  /** A cell never written holds zero, as freshly created message memory does. */
  type Memory = map<Path, Cell>

  function Zeros(n: nat): (bytes: seq<Byte>)
    ensures |bytes| == n
  {
    seq(n, _ => 0)
  }

  function LoadBytes(m: Memory, p: Path, n: nat): (bytes: seq<Byte>)
    ensures |bytes| == n
  {
    if p in m && m[p].BytesC? && |m[p].bytes| == n then m[p].bytes else Zeros(n)
  }

  function LoadSize(m: Memory, p: Path): nat {
    if p in m && m[p].SizeC? then m[p].size else 0
  }

  // ---------- what a message holds, as a term ----------

  function FromNum(n: Num): Term {
    match n
    case NaN => AtomT("nan")
    case PosInf => AtomT("infinity")
    case NegInf => AtomT("neg_infinity")
    case Finite(r) => FloatT(r)
  }

  function FromBool(b: bool): Term {
    AtomT(if b then "true" else "false")
  }

  function LoadLeaf(m: Memory, prim: Prim, p: Path): Term {
    match prim
    case IntS(_, _) => IntT(if p in m && m[p].IntC? then m[p].i else 0)
    case FloatS(_) => FromNum(if p in m && m[p].NumC? then m[p].n else Finite(0.0))
    case BoolS => FromBool(p in m && m[p].BoolC? && m[p].b)
    case StringS | BoundedS(_) => BinT(if p in m && m[p].BytesC? then m[p].bytes else [])
    case BytesS(n) => BinT(LoadBytes(m, p, n))
  }

  /** The term the get function builds from the memory at p. */
  function Get(m: Memory, s: Schema, p: Path): Term
    decreases s
  {
    match s
    case Leaf(prim) => LoadLeaf(m, prim, p)
    case StructS(fields) => TupleT(seq(|fields|, i requires 0 <= i < |fields| => Get(m, fields[i], p + [i])))
    case SeqS(elem) => ListT(seq(LoadSize(m, p), i requires 0 <= i < LoadSize(m, p) => Get(m, elem, p + [i])))
    case ArrayS(n, cell) => ListT(seq(n, i requires 0 <= i < n => LoadLeaf(m, cell, p + [i])))
  }

  function Zero(s: Schema): Term {
    match s
    case Leaf(prim) => LoadLeaf(map[], prim, [])
    case StructS(fields) => TupleT(seq(|fields|, i requires 0 <= i < |fields| => Zero(fields[i])))
    case SeqS(_) => ListT([])
    case ArrayS(n, cell) => ListT(seq(n, _ => LoadLeaf(map[], cell, [])))
  }

  // ---------- what a set accepts and what it leaves ----------

  /** Tuples are read without looking at their arity: the caller must supply the fields the schema has. */
  predicate Wide(s: Schema, t: Term)
    decreases s
  {
    match s
    case Leaf(_) => true
    case StructS(fields) =>
      t.TupleT? ==> |t.elems| >= |fields| && forall i | 0 <= i < |fields| :: Wide(fields[i], t.elems[i])
    case SeqS(elem) => t.ListT? ==> forall i | 0 <= i < |t.items| :: Wide(elem, t.items[i])
    case ArrayS(_, _) => true
  }

  predicate IsFloatAtom(name: string) {
    name == "nan" || name == "infinity" || name == "neg_infinity"
  }

  predicate Latin1(name: string) {
    forall i | 0 <= i < |name| :: name[i] as int < 256
  }

  predicate AcceptsLeaf(prim: Prim, t: Term) {
    match prim
    case IntS(w, signed) => t.IntT? && InRange(ReadWidth(w), signed, t.i)
    case FloatS(_) => t.FloatT? || (t.AtomT? && IsFloatAtom(t.name))
    case BoolS => t.AtomT? && Latin1(t.name)
    case StringS => t.BinT?
    case BoundedS(bound) => t.BinT? && |t.bytes| <= bound
    case BytesS(n) => t.BinT? && |t.bytes| <= n
  }

  predicate Accepts(s: Schema, t: Term)
    decreases s
  {
    match s
    case Leaf(prim) => AcceptsLeaf(prim, t)
    case StructS(fields) =>
      t.TupleT? && |t.elems| >= |fields| && forall i | 0 <= i < |fields| :: Accepts(fields[i], t.elems[i])
    case SeqS(elem) => t.ListT? && forall i | 0 <= i < |t.items| :: Accepts(elem, t.items[i])
    case ArrayS(n, cell) => t.ListT? && |t.items| >= n && CellsBefore(cell, t.items, n)
  }

  predicate CellsBefore(cell: Prim, items: seq<Term>, k: nat)
    requires k <= |items|
  {
    forall j | 0 <= j < k :: AcceptsLeaf(cell, items[j])
  }

  function ToNum(narrow: Narrow, single: bool, t: Term): Num
    requires t.FloatT? || (t.AtomT? && IsFloatAtom(t.name))
  {
    if t.FloatT? then (if single then narrow(t.r) else Finite(t.r))
    else if t.name == "nan" then NaN
    else if t.name == "infinity" then PosInf
    else NegInf
  }

  /** A boolean is true when its atom starts with "true". */
  predicate ToBool(name: string) {
    "true" <= name
  }

  predicate AcceptsBefore(s: Schema, items: seq<Term>, k: nat)
    requires k <= |items|
  {
    forall j | 0 <= j < k :: Accepts(s, items[j])
  }

  predicate FieldsBefore(fields: seq<Schema>, elems: seq<Term>, k: nat)
    requires k <= |fields| <= |elems|
  {
    forall j | 0 <= j < k :: Accepts(fields[j], elems[j])
  }

  function Field(t: Term, s: seq<Schema>, i: nat): Term
    requires i < |s|
  {
    if t.TupleT? && i < |t.elems| then t.elems[i] else Zero(s[i])
  }

  function LeafBack(narrow: Narrow, prim: Prim, t: Term, prior: Term): Term {
    if !AcceptsLeaf(prim, t) then prior
    else
      match prim
      case IntS(w, signed) => IntT(Wrap(w, signed, t.i))
      case FloatS(single) => FromNum(ToNum(narrow, single, t))
      case BoolS => FromBool(ToBool(t.name))
      case StringS | BoundedS(_) => t
      case BytesS(n) =>
        var held := if prior.BinT? && |prior.bytes| == n then prior.bytes else Zeros(n);
        BinT(t.bytes + held[|t.bytes|..])
  }

  /** The i-th cell of a fixed array, as a message that held prior has it. */
  function CellOf(prior: Term, n: nat, cell: Prim, i: nat): Term
    requires i < n
  {
    if prior.ListT? && |prior.items| == n then prior.items[i] else LoadLeaf(map[], cell, [])
  }

  /** The i-th cell of a fixed array after setting items; the list may be too short, or longer than it need be. */
  function CellBack(narrow: Narrow, n: nat, cell: Prim, items: seq<Term>, prior: Term, i: nat): Term
    requires i < n
  {
    if i < |items| && CellsBefore(cell, items, i) then LeafBack(narrow, cell, items[i], CellOf(prior, n, cell, i))
    else CellOf(prior, n, cell, i)
  }

  /**
   What reads back after setting t over a message that held prior, accepted or not: each field up to the
   first refused one holds what was given, the later ones what they held before. A sequence is replaced
   before its elements are read, so its unread elements are zero.
   */
  function ReadBack(narrow: Narrow, s: Schema, t: Term, prior: Term): Term
    requires Wide(s, t)
    decreases s
  {
    match s
    case Leaf(prim) => LeafBack(narrow, prim, t, prior)
    case StructS(fields) =>
      if !t.TupleT? then prior
      else
        TupleT(seq(|fields|, i requires 0 <= i < |fields| =>
          if FieldsBefore(fields, t.elems, i) then ReadBack(narrow, fields[i], t.elems[i], Field(prior, fields, i))
          else Field(prior, fields, i)))
    case SeqS(elem) =>
      if !t.ListT? then prior
      else
        ListT(seq(|t.items|, i requires 0 <= i < |t.items| =>
          if AcceptsBefore(elem, t.items, i) then ReadBack(narrow, elem, t.items[i], Zero(elem)) else Zero(elem)))
    case ArrayS(n, cell) =>
      if !t.ListT? then prior
      else ListT(seq(n, i requires 0 <= i < n => CellBack(narrow, n, cell, t.items, prior, i)))
  }

  // ---------- frames ----------

  predicate SameAt(m: Memory, n: Memory, q: Path) {
    (q in m <==> q in n) && (q in m ==> m[q] == n[q])
  }

  ghost predicate SameUnder(m: Memory, n: Memory, p: Path) {
    forall q: Path | p <= q :: SameAt(m, n, q)
  }

  ghost predicate SameOutside(m: Memory, n: Memory, p: Path) {
    forall q: Path | !(p <= q) :: SameAt(m, n, q)
  }

  lemma UnderChild(m: Memory, n: Memory, p: Path, i: nat)
    requires SameUnder(m, n, p)
    ensures SameUnder(m, n, p + [i])
  {
  }

  lemma {:induction false} GetFrame(m: Memory, n: Memory, s: Schema, p: Path)
    requires SameUnder(m, n, p)
    ensures Get(m, s, p) == Get(n, s, p)
    decreases s
  {
    assert SameAt(m, n, p);
    match s
    case Leaf(_) =>
    case StructS(fields) =>
      forall i | 0 <= i < |fields| ensures Get(m, fields[i], p + [i]) == Get(n, fields[i], p + [i]) {
        UnderChild(m, n, p, i);
        GetFrame(m, n, fields[i], p + [i]);
      }
    case SeqS(elem) =>
      forall i | 0 <= i < LoadSize(m, p) ensures Get(m, elem, p + [i]) == Get(n, elem, p + [i]) {
        UnderChild(m, n, p, i);
        GetFrame(m, n, elem, p + [i]);
      }
    case ArrayS(size, cell) =>
      forall i | 0 <= i < size ensures LoadLeaf(m, cell, p + [i]) == LoadLeaf(n, cell, p + [i]) {
        UnderChild(m, n, p, i);
        assert SameAt(m, n, p + [i]);
      }
  }

  lemma {:induction false} GetZero(s: Schema, p: Path)
    ensures Get(map[], s, p) == Zero(s)
    decreases s
  {
    match s
    case Leaf(_) =>
    case StructS(fields) =>
      forall i | 0 <= i < |fields| ensures Get(map[], fields[i], p + [i]) == Zero(fields[i]) {
        GetZero(fields[i], p + [i]);
      }
    case SeqS(_) | ArrayS(_, _) =>
  }

  /** Work confined to p + [i] leaves p's own cell and everything outside p as they were. */
  lemma ChildFrame(m: Memory, n: Memory, p: Path, i: nat)
    requires SameOutside(m, n, p + [i])
    ensures SameAt(m, n, p)
    ensures SameOutside(m, n, p)
  {
  }

  /** It also leaves p's other children as they were. */
  lemma SiblingFrame(m: Memory, n: Memory, p: Path, i: nat, j: nat)
    requires SameOutside(m, n, p + [i]) && i != j
    ensures SameUnder(m, n, p + [j])
  {
    forall q: Path | p + [j] <= q ensures SameAt(m, n, q) {
      assert q[|p|] == j;
      assert !(p + [i] <= q);
    }
  }

  lemma ElementFrame(m: Memory, n: Memory, elem: Schema, p: Path, i: nat)
    requires SameOutside(m, n, p + [i])
    ensures forall j: nat | j != i :: Get(n, elem, p + [j]) == Get(m, elem, p + [j])
  {
    forall j: nat | j != i ensures Get(n, elem, p + [j]) == Get(m, elem, p + [j]) {
      SiblingFrame(m, n, p, i, j);
      GetFrame(m, n, elem, p + [j]);
    }
  }

  lemma FieldFrame(m: Memory, n: Memory, fields: seq<Schema>, p: Path, i: nat)
    requires SameOutside(m, n, p + [i])
    ensures forall j: nat | j < |fields| && j != i :: Get(n, fields[j], p + [j]) == Get(m, fields[j], p + [j])
  {
    forall j: nat | j < |fields| && j != i ensures Get(n, fields[j], p + [j]) == Get(m, fields[j], p + [j]) {
      SiblingFrame(m, n, p, i, j);
      GetFrame(m, n, fields[j], p + [j]);
    }
  }

  lemma CellFrame(m: Memory, n: Memory, cell: Prim, p: Path, i: nat)
    requires SameOutside(m, n, p + [i])
    ensures forall j: nat | j != i :: LoadLeaf(n, cell, p + [j]) == LoadLeaf(m, cell, p + [j])
  {
    forall j: nat | j != i ensures LoadLeaf(n, cell, p + [j]) == LoadLeaf(m, cell, p + [j]) {
      SiblingFrame(m, n, p, i, j);
      assert SameAt(m, n, p + [j]);
    }
  }

  lemma OutsideTwice(l: Memory, m: Memory, n: Memory, p: Path)
    requires SameOutside(l, m, p) && SameOutside(m, n, p)
    ensures SameOutside(l, n, p)
  {
    forall q: Path | !(p <= q) ensures SameAt(l, n, q) {
      assert SameAt(l, m, q) && SameAt(m, n, q);
    }
  }

  /** The field-by-field account of a struct adds up to ReadBack. i is the number of fields attempted. */
  lemma StructBack(narrow: Narrow, fields: seq<Schema>, t: Term, p: Path, m: Memory, n: Memory, i: nat, ok: bool)
    requires t.TupleT? && Wide(StructS(fields), t) && i <= |fields|
    requires if ok then i == |fields| && FieldsBefore(fields, t.elems, i)
             else 0 < i && FieldsBefore(fields, t.elems, i - 1) && !Accepts(fields[i - 1], t.elems[i - 1])
    requires forall j: nat | j < i ::
               Get(n, fields[j], p + [j]) == ReadBack(narrow, fields[j], t.elems[j], Get(m, fields[j], p + [j]))
    requires forall j: nat | i <= j < |fields| :: Get(n, fields[j], p + [j]) == Get(m, fields[j], p + [j])
    ensures ok == Accepts(StructS(fields), t)
    ensures Get(n, StructS(fields), p) == ReadBack(narrow, StructS(fields), t, Get(m, StructS(fields), p))
  {
    var (got, want) := (Get(n, StructS(fields), p), ReadBack(narrow, StructS(fields), t, Get(m, StructS(fields), p)));
    forall j: nat | j < |fields| ensures got.elems[j] == want.elems[j] {
      assert FieldsBefore(fields, t.elems, j) <==> (ok || j < i);
    }
  }

  /** The first i elements of a new sequence are set, the rest are still zero. */
  ghost predicate SeqAccount(narrow: Narrow, elem: Schema, t: Term, p: Path, n: Memory, i: nat)
    requires t.ListT? && Wide(SeqS(elem), t) && i <= |t.items|
  {
    && LoadSize(n, p) == |t.items|
    && (forall j: nat | j < i :: Get(n, elem, p + [j]) == ReadBack(narrow, elem, t.items[j], Zero(elem)))
    && (forall j: nat | i <= j :: Get(n, elem, p + [j]) == Zero(elem))
  }

  lemma SeqStep(narrow: Narrow, elem: Schema, t: Term, p: Path, m: Memory, n: Memory, i: nat)
    requires t.ListT? && Wide(SeqS(elem), t) && i < |t.items| && SeqAccount(narrow, elem, t, p, m, i)
    requires SameOutside(m, n, p + [i])
    requires Get(n, elem, p + [i]) == ReadBack(narrow, elem, t.items[i], Get(m, elem, p + [i]))
    ensures SeqAccount(narrow, elem, t, p, n, i + 1) && SameOutside(m, n, p)
  {
    ChildFrame(m, n, p, i);
    ElementFrame(m, n, elem, p, i);
  }

  /** The element-by-element account of a sequence adds up to ReadBack. */
  lemma SeqBack(narrow: Narrow, elem: Schema, t: Term, p: Path, n: Memory, prior: Term, i: nat, ok: bool)
    requires t.ListT? && Wide(SeqS(elem), t) && i <= |t.items| && SeqAccount(narrow, elem, t, p, n, i)
    requires if ok then i == |t.items| && AcceptsBefore(elem, t.items, i)
             else 0 < i && AcceptsBefore(elem, t.items, i - 1) && !Accepts(elem, t.items[i - 1])
    ensures ok == Accepts(SeqS(elem), t)
    ensures Get(n, SeqS(elem), p) == ReadBack(narrow, SeqS(elem), t, prior)
  {
    var (got, want) := (Get(n, SeqS(elem), p), ReadBack(narrow, SeqS(elem), t, prior));
    forall j: nat | j < |t.items| ensures got.items[j] == want.items[j] {
      assert AcceptsBefore(elem, t.items, j) <==> (ok || j < i);
    }
  }

  /** A list is refused at i when it ends there or its element there is; all before is accepted. */
  predicate RefusedAt(cell: Prim, items: seq<Term>, i: nat) {
    i <= |items| && CellsBefore(cell, items, i) && (i < |items| ==> !AcceptsLeaf(cell, items[i]))
  }

  /** The cell-by-cell account of a fixed array adds up to ReadBack. */
  lemma ArrayBack(
    narrow: Narrow, n: Size, cell: Prim, t: Term, p: Path, m: Memory, prior: Term, i: nat, ok: bool)
    requires t.ListT? && i <= n
    requires if ok then i == n && n <= |t.items| && CellsBefore(cell, t.items, n)
             else 0 < i && RefusedAt(cell, t.items, i - 1)
    requires forall j: nat | j < i :: LoadLeaf(m, cell, p + [j]) == CellBack(narrow, n, cell, t.items, prior, j)
    requires forall j: nat | i <= j < n :: LoadLeaf(m, cell, p + [j]) == CellOf(prior, n, cell, j)
    ensures ok == Accepts(ArrayS(n, cell), t)
    ensures Get(m, ArrayS(n, cell), p) == ReadBack(narrow, ArrayS(n, cell), t, prior)
  {
    var (got, want) := (Get(m, ArrayS(n, cell), p), ReadBack(narrow, ArrayS(n, cell), t, prior));
    forall j: nat | j < n ensures got.items[j] == want.items[j] {}
  }

  // ---------- the codec ----------

  class Message {
    var mem: Memory

    constructor ()
      ensures mem == map[]
    {
      mem := map[];
    }

    /** The set function at p: reads t into the message, stopping at the first field it refuses. */
    method Set(narrow: Narrow, s: Schema, t: Term, p: Path) returns (ok: bool)
      requires Wide(s, t)
      modifies this
      ensures ok == Accepts(s, t)
      ensures Get(mem, s, p) == ReadBack(narrow, s, t, Get(old(mem), s, p))
      ensures SameOutside(old(mem), mem, p)
      decreases s
    {
      match s
      case Leaf(prim) =>
        ok := SetLeaf(narrow, prim, t, p);
      case StructS(fields) =>
        ok := SetStruct(narrow, fields, t, p);
      case SeqS(elem) =>
        ok := SetSeq(narrow, elem, t, p);
      case ArrayS(n, cell) =>
        ok := SetArray(narrow, n, cell, t, p);
    }

    method SetLeaf(narrow: Narrow, prim: Prim, t: Term, p: Path) returns (ok: bool)
      modifies this
      ensures ok == AcceptsLeaf(prim, t)
      ensures LoadLeaf(mem, prim, p) == LeafBack(narrow, prim, t, LoadLeaf(old(mem), prim, p))
      ensures SameOutside(old(mem), mem, p)
    {
      ok := AcceptsLeaf(prim, t);
      if ok {
        var cell := match prim
          case IntS(w, signed) => IntC(Wrap(w, signed, t.i))
          case FloatS(single) => NumC(ToNum(narrow, single, t))
          case BoolS => BoolC(ToBool(t.name))
          case StringS | BoundedS(_) => BytesC(t.bytes)
          case BytesS(n) => BytesC(t.bytes + LoadBytes(mem, p, n)[|t.bytes|..]);
        mem := mem[p := cell];
      }
    }

    method SetStruct(narrow: Narrow, fields: seq<Schema>, t: Term, p: Path) returns (ok: bool)
      requires Wide(StructS(fields), t)
      modifies this
      ensures ok == Accepts(StructS(fields), t)
      ensures Get(mem, StructS(fields), p) == ReadBack(narrow, StructS(fields), t, Get(old(mem), StructS(fields), p))
      ensures SameOutside(old(mem), mem, p)
      decreases StructS(fields), 0
    {
      if !t.TupleT? {
        return false;
      }
      var i := 0;
      ok := true;
      while ok && i < |fields|
        invariant 0 <= i <= |fields|
        invariant ok ==> FieldsBefore(fields, t.elems, i)
        invariant !ok ==> 0 < i && FieldsBefore(fields, t.elems, i - 1) && !Accepts(fields[i - 1], t.elems[i - 1])
        invariant forall j: nat | j < i ::
                    Get(mem, fields[j], p + [j]) ==
                    ReadBack(narrow, fields[j], t.elems[j], Get(old(mem), fields[j], p + [j]))
        invariant forall j: nat | i <= j < |fields| :: Get(mem, fields[j], p + [j]) == Get(old(mem), fields[j], p + [j])
        invariant SameOutside(old(mem), mem, p)
      {
        ghost var before := mem;
        ok := Set(narrow, fields[i], t.elems[i], p + [i]);
        ChildFrame(before, mem, p, i);
        OutsideTwice(old(mem), before, mem, p);
        FieldFrame(before, mem, fields, p, i);
        i := i + 1;
      }
      StructBack(narrow, fields, t, p, old(mem), mem, i, ok);
    }

    /** Replaces the sequence at p by a fresh one of the given length. */
    method CreateSeq(elem: Schema, length: nat, p: Path)
      modifies this
      ensures LoadSize(mem, p) == length
      ensures forall j: nat :: Get(mem, elem, p + [j]) == Zero(elem)
      ensures SameOutside(old(mem), mem, p)
    {
      mem := (map q | q in mem && !(p <= q) :: mem[q])[p := SizeC(length)];
      forall j: nat ensures Get(mem, elem, p + [j]) == Zero(elem) {
        GetFrame(mem, map[], elem, p + [j]);
        GetZero(elem, p + [j]);
      }
    }

    method SetSeq(narrow: Narrow, elem: Schema, t: Term, p: Path) returns (ok: bool)
      requires Wide(SeqS(elem), t)
      modifies this
      ensures ok == Accepts(SeqS(elem), t)
      ensures Get(mem, SeqS(elem), p) == ReadBack(narrow, SeqS(elem), t, Get(old(mem), SeqS(elem), p))
      ensures SameOutside(old(mem), mem, p)
      decreases SeqS(elem), 0
    {
      if !t.ListT? {
        return false;
      }
      var length := |t.items|;
      CreateSeq(elem, length, p);
      var i, left := 0, t.items;
      ok := true;
      while ok && i < length
        invariant 0 <= i <= length && left == t.items[i..]
        invariant ok ==> AcceptsBefore(elem, t.items, i)
        invariant !ok ==> 0 < i && AcceptsBefore(elem, t.items, i - 1) && !Accepts(elem, t.items[i - 1])
        invariant SeqAccount(narrow, elem, t, p, mem, i)
        invariant SameOutside(old(mem), mem, p)
      {
        ghost var before := mem;
        ok := Set(narrow, elem, left[0], p + [i]);
        SeqStep(narrow, elem, t, p, before, mem, i);
        OutsideTwice(old(mem), before, mem, p);
        i, left := i + 1, left[1..];
      }
      SeqBack(narrow, elem, t, p, mem, Get(old(mem), SeqS(elem), p), i, ok);
    }

    /** Fills a fixed array in place from the front of a list. */
    method SetArray(narrow: Narrow, n: Size, cell: Prim, t: Term, p: Path) returns (ok: bool)
      modifies this
      ensures ok == Accepts(ArrayS(n, cell), t)
      ensures Get(mem, ArrayS(n, cell), p) == ReadBack(narrow, ArrayS(n, cell), t, Get(old(mem), ArrayS(n, cell), p))
      ensures SameOutside(old(mem), mem, p)
    {
      if !t.ListT? {
        return false;
      }
      ghost var prior := Get(mem, ArrayS(n, cell), p);
      var i, left := 0, t.items;
      ok := true;
      while ok && i < n
        invariant 0 <= i <= n
        invariant ok ==> i <= |t.items| && left == t.items[i..] && CellsBefore(cell, t.items, i)
        invariant !ok ==> 0 < i && RefusedAt(cell, t.items, i - 1)
        invariant forall j: nat | j < i ::
                    LoadLeaf(mem, cell, p + [j]) == CellBack(narrow, n, cell, t.items, prior, j)
        invariant forall j: nat | i <= j < n :: LoadLeaf(mem, cell, p + [j]) == CellOf(prior, n, cell, j)
        invariant SameOutside(old(mem), mem, p)
      {
        if left == [] {
          ok := false;
        } else {
          ghost var before := mem;
          ok := SetLeaf(narrow, cell, left[0], p + [i]);
          ChildFrame(before, mem, p, i);
          OutsideTwice(old(mem), before, mem, p);
          CellFrame(before, mem, cell, p, i);
          left := left[1..];
        }
        i := i + 1;
      }
      ArrayBack(narrow, n, cell, t, p, mem, prior, i, ok);
    }

    /** The get function at p. */
    method Read(s: Schema, p: Path) returns (t: Term)
      ensures t == Get(mem, s, p)
      decreases s
    {
      match s
      case Leaf(prim) =>
        t := LoadLeaf(mem, prim, p);
      case StructS(fields) =>
        var elems := [];
        var i := 0;
        while i < |fields|
          invariant 0 <= i <= |fields| && |elems| == i
          invariant forall j | 0 <= j < i :: elems[j] == Get(mem, fields[j], p + [j])
        {
          var e := Read(fields[i], p + [i]);
          elems := elems + [e];
          i := i + 1;
        }
        t := TupleT(elems);
      case SeqS(elem) =>
        var items := [];
        var i := 0;
        while i < LoadSize(mem, p)
          invariant 0 <= i <= LoadSize(mem, p) && |items| == i
          invariant forall j | 0 <= j < i :: items[j] == Get(mem, elem, p + [j])
        {
          var e := Read(elem, p + [i]);
          items := items + [e];
          i := i + 1;
        }
        t := ListT(items);
      case ArrayS(n, cell) =>
        var items := [];
        var i := 0;
        while i < n
          invariant 0 <= i <= n && |items| == i
          invariant forall j | 0 <= j < i :: items[j] == LoadLeaf(mem, cell, p + [j])
        {
          items := items + [LoadLeaf(mem, cell, p + [i])];
          i := i + 1;
        }
        t := ListT(items);
    }
  }
}
