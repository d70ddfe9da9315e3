/** Round trips and refusals of the message codec, for every schema. */
module CodecTheorems {
  import opened Codec

  predicate Representable(narrow: Narrow, r: real) {
    narrow(r) == Finite(r)
  }

  predicate TypedLeaf(narrow: Narrow, prim: Prim, t: Term) {
    match prim
    case IntS(w, signed) => t.IntT? && InRange(w, signed, t.i)
    case FloatS(single) =>
      (t.AtomT? && IsFloatAtom(t.name)) || (t.FloatT? && (single ==> Representable(narrow, t.r)))
    case BoolS => t == FromBool(true) || t == FromBool(false)
    case StringS => t.BinT?
    case BoundedS(bound) => t.BinT? && |t.bytes| <= bound
    case BytesS(n) => t.BinT? && |t.bytes| == n
  }

  /** The terms the Elixir side builds from a message struct whose fields have their declared types. */
  predicate WellTyped(narrow: Narrow, s: Schema, t: Term)
    decreases s
  {
    match s
    case Leaf(prim) => TypedLeaf(narrow, prim, t)
    case StructS(fields) =>
      t.TupleT? && |t.elems| == |fields| && forall i | 0 <= i < |fields| :: WellTyped(narrow, fields[i], t.elems[i])
    case SeqS(elem) => t.ListT? && forall i | 0 <= i < |t.items| :: WellTyped(narrow, elem, t.items[i])
    case ArrayS(n, cell) =>
      t.ListT? && |t.items| == n && forall i | 0 <= i < |t.items| :: TypedLeaf(narrow, cell, t.items[i])
  }

  // ---------- integers ----------

  lemma WrapInRange(w: Width, signed: bool, i: int)
    ensures InRange(w, signed, Wrap(w, signed, i))
    ensures InRange(w, signed, i) ==> Wrap(w, signed, i) == i && InRange(ReadWidth(w), signed, i)
  {
  }

  /**
   A narrow field accepts every integer of the width it is read at, and keeps it exactly when the integer
   fits the field; otherwise it silently keeps another one.
   */
  lemma NarrowInteger(narrow: Narrow, w: Width, signed: bool, i: int, prior: Term)
    requires InRange(ReadWidth(w), signed, i)
    ensures Accepts(Leaf(IntS(w, signed)), IntT(i))
    ensures ReadBack(narrow, Leaf(IntS(w, signed)), IntT(i), prior) == IntT(i) <==> InRange(w, signed, i)
  {
  }

  /** An atom is taken for true exactly when its name starts with "true"; only true and false read back as given. */
  lemma BooleanAtoms(narrow: Narrow, name: string, prior: Term)
    requires Latin1(name)
    ensures ReadBack(narrow, Leaf(BoolS), AtomT(name), prior) == FromBool("true" <= name)
    ensures ReadBack(narrow, Leaf(BoolS), AtomT(name), prior) == AtomT(name) <==> name == "true" || name == "false"
  {
    assert Accepts(Leaf(BoolS), AtomT(name));
    assert !("true" <= "false") by {
      assert "true"[0] != "false"[0];
    }
  }

  /**
   What a field accepts, told by what is well typed: an integer field what an integer field of the width it is
   read at holds, a float or string field what is well typed for it if nothing is lost by narrowing, a byte
   field what some byte field no longer than itself holds, and a boolean field any Latin-1 atom.
   */
  lemma LeafAcceptance(narrow: Narrow, prim: Prim, t: Term)
    requires forall r: real :: narrow(r) == Finite(r)
    ensures AcceptsLeaf(prim, t) <==>
              match prim
              case IntS(W64, signed) => TypedLeaf(narrow, IntS(W64, signed), t)
              case IntS(_, signed) => TypedLeaf(narrow, IntS(W32, signed), t)
              case FloatS(_) | StringS | BoundedS(_) => TypedLeaf(narrow, prim, t)
              case BytesS(n) => t.BinT? && |t.bytes| <= n && TypedLeaf(narrow, BytesS(|t.bytes|), t)
              case BoolS => t.AtomT? && Latin1(t.name)
  {
  }

  // ---------- round trips ----------

  lemma LeafRoundTrip(narrow: Narrow, prim: Prim, t: Term, prior: Term)
    requires TypedLeaf(narrow, prim, t)
    ensures AcceptsLeaf(prim, t) && LeafBack(narrow, prim, t, prior) == t
  {
    match prim
    case IntS(w, signed) => WrapInRange(w, signed, t.i);
    case BoolS => BooleanAtoms(narrow, t.name, prior);
    case BytesS(n) =>
      var held := if prior.BinT? && |prior.bytes| == n then prior.bytes else Zeros(n);
      assert t.bytes + held[n..] == t.bytes;
    case _ =>
  }

  /** Setting a well-typed term succeeds and reads back as that term, whatever the message held before. */
  lemma {:induction false} RoundTrip(narrow: Narrow, s: Schema, t: Term, prior: Term)
    requires WellTyped(narrow, s, t)
    ensures Wide(s, t) && Accepts(s, t) && ReadBack(narrow, s, t, prior) == t
    decreases s
  {
    match s
    case Leaf(prim) => LeafRoundTrip(narrow, prim, t, prior);
    case StructS(fields) =>
      forall i | 0 <= i < |fields|
        ensures Wide(fields[i], t.elems[i]) && Accepts(fields[i], t.elems[i])
        ensures ReadBack(narrow, fields[i], t.elems[i], Field(prior, fields, i)) == t.elems[i]
      {
        RoundTrip(narrow, fields[i], t.elems[i], Field(prior, fields, i));
      }
      assert forall i: nat | i < |fields| :: FieldsBefore(fields, t.elems, i);
    case SeqS(elem) =>
      forall i | 0 <= i < |t.items|
        ensures Wide(elem, t.items[i]) && Accepts(elem, t.items[i])
        ensures ReadBack(narrow, elem, t.items[i], Zero(elem)) == t.items[i]
      {
        RoundTrip(narrow, elem, t.items[i], Zero(elem));
      }
      assert forall i: nat | i < |t.items| :: AcceptsBefore(elem, t.items, i);
    case ArrayS(n, cell) =>
      forall i | 0 <= i < n
        ensures AcceptsLeaf(cell, t.items[i])
        ensures LeafBack(narrow, cell, t.items[i], CellOf(prior, n, cell, i)) == t.items[i]
      {
        LeafRoundTrip(narrow, cell, t.items[i], CellOf(prior, n, cell, i));
      }
      assert forall i: nat | i < n :: CellsBefore(cell, t.items, i);
  }

  /** A struct whose fields are all accepted reads back field by field. */
  lemma StructAccepted(narrow: Narrow, fields: seq<Schema>, t: Term, prior: Term, back: seq<Term>)
    requires t.TupleT? && |t.elems| == |fields| == |back|
    requires forall i | 0 <= i < |fields| :: Wide(fields[i], t.elems[i]) && Accepts(fields[i], t.elems[i])
    requires forall i | 0 <= i < |fields| ::
               ReadBack(narrow, fields[i], t.elems[i], Field(prior, fields, i)) == back[i]
    ensures Wide(StructS(fields), t) && Accepts(StructS(fields), t)
    ensures ReadBack(narrow, StructS(fields), t, prior) == TupleT(back)
  {
    assert forall i: nat | i < |fields| :: FieldsBefore(fields, t.elems, i);
    assert ReadBack(narrow, StructS(fields), t, prior).elems == back;
  }

  lemma LeafExact(narrow: Narrow, prim: Prim, t: Term, prior: Term)
    requires AcceptsLeaf(prim, t)
    ensures LeafBack(narrow, prim, t, prior) == t <==> TypedLeaf(narrow, prim, t)
  {
    if TypedLeaf(narrow, prim, t) {
      LeafRoundTrip(narrow, prim, t, prior);
    } else if prim.BoolS? {
      BooleanAtoms(narrow, t.name, prior);
    } else if prim.IntS? {
      WrapInRange(prim.width, prim.signed, t.i);
    }
  }

  /**
   An accepted term reads back as itself exactly when it is well typed. The others are changed on the way:
   integers too wide for their field, atoms other than true and false, floats that are not representable,
   byte fields given fewer bytes than they have, and tuples and fixed arrays given more than they hold.
   */
  lemma {:induction false} RoundTripExact(narrow: Narrow, s: Schema, t: Term, prior: Term)
    requires Wide(s, t) && Accepts(s, t)
    ensures ReadBack(narrow, s, t, prior) == t <==> WellTyped(narrow, s, t)
    decreases s
  {
    if WellTyped(narrow, s, t) {
      RoundTrip(narrow, s, t, prior);
    } else {
      var back := ReadBack(narrow, s, t, prior);
      match s
      case Leaf(prim) => LeafExact(narrow, prim, t, prior);
      case StructS(fields) =>
        if |t.elems| == |fields| {
          var i :| 0 <= i < |fields| && !WellTyped(narrow, fields[i], t.elems[i]);
          assert FieldsBefore(fields, t.elems, i);
          RoundTripExact(narrow, fields[i], t.elems[i], Field(prior, fields, i));
          assert back.elems[i] != t.elems[i];
        }
      case SeqS(elem) =>
        var i :| 0 <= i < |t.items| && !WellTyped(narrow, elem, t.items[i]);
        assert AcceptsBefore(elem, t.items, i);
        RoundTripExact(narrow, elem, t.items[i], Zero(elem));
        assert back.items[i] != t.items[i];
      case ArrayS(n, cell) =>
        if |t.items| == n {
          var i :| 0 <= i < n && !TypedLeaf(narrow, cell, t.items[i]);
          LeafExact(narrow, cell, t.items[i], CellOf(prior, n, cell, i));
          assert back.items[i] != t.items[i];
        }
    }
  }

  /** The whole life of a message: set a well-typed term over anything, then get it back. */
  method SetThenGet(m: Message, narrow: Narrow, s: Schema, t: Term) returns (ok: bool, back: Term)
    requires WellTyped(narrow, s, t)
    modifies m
    ensures ok && back == t
  {
    RoundTrip(narrow, s, t, Get(m.mem, s, []));
    ok := m.Set(narrow, s, t, []);
    back := m.Read(s, []);
  }

  // ---------- what is read back is always well typed ----------

  /** A narrowing a machine could have: what it yields is representable, and so is zero. */
  ghost predicate Sound(narrow: Narrow) {
    Representable(narrow, 0.0) && forall r: real :: narrow(r).Finite? ==> Representable(narrow, narrow(r).r)
  }

  lemma {:induction false} ZeroTyped(narrow: Narrow, s: Schema)
    requires Sound(narrow)
    ensures WellTyped(narrow, s, Zero(s))
    decreases s
  {
    match s
    case Leaf(_) =>
    case StructS(fields) =>
      forall i | 0 <= i < |fields| ensures WellTyped(narrow, fields[i], Zero(fields[i])) {
        ZeroTyped(narrow, fields[i]);
      }
    case SeqS(_) | ArrayS(_, _) =>
  }

  lemma LeafBackTyped(narrow: Narrow, prim: Prim, t: Term, prior: Term)
    requires Sound(narrow) && TypedLeaf(narrow, prim, prior)
    ensures TypedLeaf(narrow, prim, LeafBack(narrow, prim, t, prior))
  {
  }

  /** Whatever is set, accepted or refused, a message that read back as a well-typed term still does. */
  lemma {:induction false} ReadBackTyped(narrow: Narrow, s: Schema, t: Term, prior: Term)
    requires Sound(narrow) && Wide(s, t) && WellTyped(narrow, s, prior)
    ensures WellTyped(narrow, s, ReadBack(narrow, s, t, prior))
    decreases s
  {
    match s
    case Leaf(prim) => LeafBackTyped(narrow, prim, t, prior);
    case StructS(fields) =>
      if t.TupleT? {
        var back := ReadBack(narrow, s, t, prior);
        forall i | 0 <= i < |fields| ensures WellTyped(narrow, fields[i], back.elems[i]) {
          ReadBackTyped(narrow, fields[i], t.elems[i], prior.elems[i]);
        }
      }
    case SeqS(elem) =>
      ZeroTyped(narrow, elem);
      if t.ListT? {
        forall i | 0 <= i < |t.items|
          ensures WellTyped(narrow, elem, ReadBack(narrow, elem, t.items[i], Zero(elem)))
        {
          ReadBackTyped(narrow, elem, t.items[i], Zero(elem));
        }
      }
    case ArrayS(n, cell) =>
      if t.ListT? {
        forall i | 0 <= i < n ensures TypedLeaf(narrow, cell, CellBack(narrow, n, cell, t.items, prior, i)) {
          if i < |t.items| {
            LeafBackTyped(narrow, cell, t.items[i], prior.items[i]);
          }
        }
      }
  }

  /** So what a get returns can be set again, on any message, and reads back the same. */
  lemma SetAgain(narrow: Narrow, s: Schema, t: Term, prior: Term, other: Term)
    requires Sound(narrow) && Wide(s, t) && WellTyped(narrow, s, prior)
    ensures var back := ReadBack(narrow, s, t, prior);
            Wide(s, back) && Accepts(s, back) && ReadBack(narrow, s, back, other) == back
  {
    ReadBackTyped(narrow, s, t, prior);
    RoundTrip(narrow, s, ReadBack(narrow, s, t, prior), other);
  }

  // ---------- refusals ----------

  /** A struct refused at field k: the fields before it are as given, those after it as they were. */
  lemma RefusedStruct(narrow: Narrow, fields: seq<Schema>, t: Term, prior: Term, k: nat)
    requires t.TupleT? && Wide(StructS(fields), t) && prior.TupleT? && |prior.elems| == |fields|
    requires k < |fields| && FieldsBefore(fields, t.elems, k) && !Accepts(fields[k], t.elems[k])
    ensures !Accepts(StructS(fields), t)
    ensures var back := ReadBack(narrow, StructS(fields), t, prior);
            && back.TupleT? && |back.elems| == |fields|
            && (forall j | k < j < |fields| :: back.elems[j] == prior.elems[j])
            && back.elems[k] == ReadBack(narrow, fields[k], t.elems[k], prior.elems[k])
            && (forall j | 0 <= j < k :: back.elems[j] == ReadBack(narrow, fields[j], t.elems[j], prior.elems[j]))
  {
  }

  /** A sequence refused at element k keeps its new length; the elements after k are zero. */
  lemma RefusedSeq(narrow: Narrow, elem: Schema, t: Term, prior: Term, k: nat)
    requires t.ListT? && Wide(SeqS(elem), t)
    requires k < |t.items| && AcceptsBefore(elem, t.items, k) && !Accepts(elem, t.items[k])
    ensures !Accepts(SeqS(elem), t)
    ensures var back := ReadBack(narrow, SeqS(elem), t, prior);
            && back.ListT? && |back.items| == |t.items|
            && (forall j | k < j < |t.items| :: back.items[j] == Zero(elem))
            && (forall j | 0 <= j <= k :: back.items[j] == ReadBack(narrow, elem, t.items[j], Zero(elem)))
  {
  }

  /** As many elements of a list as a fixed array of n cells looks at. */
  function Reached(n: Size, items: seq<Term>): (k: nat)
    ensures k <= |items| && k <= n
  {
    if |items| < n then |items| else n
  }

  /**
   A fixed array takes the front of a list and ignores the rest, whatever it is; a list that is too short is
   refused after its elements were written, and the cells it does not reach are as they were.
   */
  lemma FixedArrays(narrow: Narrow, n: Size, cell: Prim, t: Term, prior: Term)
    requires t.ListT? && prior.ListT? && |prior.items| == n && CellsBefore(cell, t.items, Reached(n, t.items))
    ensures Accepts(ArrayS(n, cell), t) <==> |t.items| >= n
    ensures var back := ReadBack(narrow, ArrayS(n, cell), t, prior);
            && back.ListT? && |back.items| == n
            && forall i | 0 <= i < n ::
                 back.items[i] ==
                 if i < |t.items| then LeafBack(narrow, cell, t.items[i], prior.items[i]) else prior.items[i]
  {
    assert forall i: nat | i < Reached(n, t.items) :: CellsBefore(cell, t.items, i);
  }
}
