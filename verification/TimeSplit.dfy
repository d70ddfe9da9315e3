/**
 Nanosecond counts split into seconds and nanoseconds, three times over: for durations, for the stamps of
 action messages, and for tf2. Elixir's div and rem, like C++'s / and %, truncate toward zero, so negative
 counts are where the three could differ.
 */
module TimeSplit {
  import opened Wrappers
  import opened Codec
  import opened CodecTheorems
  import opened Messages

  const SECOND: int := 1_000_000_000
  const INT32_MAX: int := 0x7FFF_FFFF
  const INT64_MAX: int := 0x7FFF_FFFF_FFFF_FFFF

  datatype Stamp = Stamp(sec: int, nanosec: int)

  function TruncDiv(a: int, b: int): int
    requires b > 0
  {
    if a >= 0 then a / b else -(-a / b)
  }

  function TruncRem(a: int, b: int): int
    requires b > 0
  {
    if a >= 0 then a % b else -(-a % b)
  }

  // ---------- durations ----------

  function ToMsg(ns: int): Stamp {
    var (sec, signed) := (TruncDiv(ns, SECOND), TruncRem(ns, SECOND));
    if signed < 0 then Stamp(sec - 1, signed + SECOND) else Stamp(sec, signed)
  }

  function FromMsg(t: Stamp): int {
    t.sec * SECOND + t.nanosec
  }

  predicate Normal(t: Stamp) {
    0 <= t.nanosec < SECOND
  }

  predicate Before(t: Stamp, u: Stamp) {
    t.sec < u.sec || (t.sec == u.sec && t.nanosec < u.nanosec)
  }

  /** The split of any count, negative or not, is the one normal stamp that stands for it. */
  lemma ToMsgIsTheNormalStamp(ns: int, t: Stamp)
    ensures ToMsg(ns) == t <==> Normal(t) && FromMsg(t) == ns
  {
  }

  /** Splitting keeps the order of durations, as the order of seconds first and nanoseconds second. */
  lemma ToMsgKeepsOrder(a: int, b: int)
    ensures a < b <==> Before(ToMsg(a), ToMsg(b))
  {
  }

  function Add(t: Stamp, u: Stamp): Stamp {
    var n := t.nanosec + u.nanosec;
    if n < SECOND then Stamp(t.sec + u.sec, n) else Stamp(t.sec + u.sec + 1, n - SECOND)
  }

  function Negate(t: Stamp): Stamp {
    if t.nanosec == 0 then Stamp(-t.sec, 0) else Stamp(-t.sec - 1, SECOND - t.nanosec)
  }

  lemma ToMsgAdds(a: int, b: int)
    ensures ToMsg(a + b) == Add(ToMsg(a), ToMsg(b))
  {
    ToMsgIsTheNormalStamp(a, ToMsg(a));
    ToMsgIsTheNormalStamp(b, ToMsg(b));
    ToMsgIsTheNormalStamp(a + b, Add(ToMsg(a), ToMsg(b)));
  }

  lemma ToMsgNegates(a: int)
    ensures ToMsg(-a) == Negate(ToMsg(a))
  {
    ToMsgIsTheNormalStamp(a, ToMsg(a));
    ToMsgIsTheNormalStamp(-a, Negate(ToMsg(a)));
  }

  lemma ToMsgSubtracts(a: int, b: int)
    ensures ToMsg(a - b) == Add(ToMsg(a), Negate(ToMsg(b)))
  {
    ToMsgIsTheNormalStamp(a, ToMsg(a));
    ToMsgIsTheNormalStamp(b, ToMsg(b));
    ToMsgIsTheNormalStamp(a - b, Add(ToMsg(a), Negate(ToMsg(b))));
  }

  /** Adding, negating and subtracting durations is, on their messages, arithmetic with a carry. */
  lemma ToMsgKeepsArithmetic(a: int, b: int)
    ensures ToMsg(a + b) == Add(ToMsg(a), ToMsg(b))
    ensures ToMsg(-a) == Negate(ToMsg(a))
    ensures ToMsg(a - b) == Add(ToMsg(a), Negate(ToMsg(b)))
  {
    ToMsgAdds(a, b);
    ToMsgNegates(a);
    ToMsgSubtracts(a, b);
  }

  // ---------- action stamps ----------

  function GenTimeStruct(ns: int): Stamp {
    Stamp(TruncDiv(ns, SECOND), TruncRem(ns, SECOND))
  }

  /**
   The stamp of an action message agrees with the duration's split exactly when the count is not negative
   or is whole seconds; else its nanoseconds are negative, which the unsigned message field refuses.
   */
  lemma GenTimeStructAgrees(ns: int)
    ensures GenTimeStruct(ns) == ToMsg(ns) <==> ns >= 0 || ns % SECOND == 0
    ensures GenTimeStruct(ns) != ToMsg(ns) ==> -SECOND < GenTimeStruct(ns).nanosec < 0
    ensures FromMsg(GenTimeStruct(ns)) == ns
  {
  }

  /** One nanosecond before zero: the duration's split is normal, the action stamp's nanoseconds are negative. */
  lemma NegativeStamp()
    ensures ToMsg(-1) == Stamp(-1, 999_999_999) && GenTimeStruct(-1) == Stamp(0, -1)
  {
  }

  // ---------- stamps in messages ----------

  function StampTerm(t: Stamp): Term {
    TupleT([IntT(t.sec), IntT(t.nanosec)])
  }

  lemma StampAccepted(t: Stamp)
    ensures Wide(TIME, StampTerm(t))
    ensures Accepts(TIME, StampTerm(t)) <==> InRange(W32, true, t.sec) && InRange(W32, false, t.nanosec)
  {
    assert Accepts(TIME.fields[0], IntT(t.sec)) <==> InRange(W32, true, t.sec);
    assert Accepts(TIME.fields[1], IntT(t.nanosec)) <==> InRange(W32, false, t.nanosec);
  }

  lemma StampArrives(narrow: Narrow, t: Stamp, prior: Term)
    requires InRange(W32, true, t.sec) && InRange(W32, false, t.nanosec)
    ensures Wide(TIME, StampTerm(t)) && ReadBack(narrow, TIME, StampTerm(t), prior) == StampTerm(t)
  {
    assert WellTyped(narrow, TIME.fields[0], IntT(t.sec)) && WellTyped(narrow, TIME.fields[1], IntT(t.nanosec));
    RoundTrip(narrow, TIME, StampTerm(t), prior);
  }

  /** A duration can be sent exactly when its seconds fit 32 bits, and then arrives as the same duration. */
  lemma DurationArrives(narrow: Narrow, ns: int, prior: Term)
    ensures Wide(TIME, StampTerm(ToMsg(ns)))
    ensures Accepts(TIME, StampTerm(ToMsg(ns))) <==> -(INT32_MAX + 1) * SECOND <= ns < (INT32_MAX + 1) * SECOND
    ensures Accepts(TIME, StampTerm(ToMsg(ns))) ==>
              && ReadBack(narrow, TIME, StampTerm(ToMsg(ns)), prior) == StampTerm(ToMsg(ns))
              && FromMsg(ToMsg(ns)) == ns
  {
    var t := ToMsg(ns);
    ToMsgIsTheNormalStamp(ns, t);
    StampAccepted(t);
    if Accepts(TIME, StampTerm(t)) {
      StampArrives(narrow, t, prior);
    }
  }

  /** An action stamp can be sent for exactly the counts in range that are nonnegative or whole seconds. */
  lemma ActionStampAccepted(ns: int)
    ensures Wide(TIME, StampTerm(GenTimeStruct(ns)))
    ensures Accepts(TIME, StampTerm(GenTimeStruct(ns))) <==>
              && (ns >= 0 || ns % SECOND == 0)
              && -(INT32_MAX + 1) * SECOND <= ns < (INT32_MAX + 1) * SECOND
  {
    GenTimeStructAgrees(ns);
    StampAccepted(GenTimeStruct(ns));
    ToMsgIsTheNormalStamp(ns, ToMsg(ns));
  }

  // ---------- tf2 ----------

  /** None is the invalid argument the buffer throws. The casts to the message's fields may cut. */
  function Tf2Split(ns: int): Option<Stamp> {
    if ns < 0 || TruncDiv(ns, SECOND) > INT32_MAX then None
    else Some(Stamp(Wrap(W32, true, TruncDiv(ns, SECOND)), Wrap(W32, false, TruncRem(ns, SECOND))))
  }

  function Tf2Join(t: Stamp): Option<int> {
    if t.sec < 0 || t.sec > INT32_MAX || t.nanosec < 0 || t.nanosec >= SECOND then None
    else Some(Wrap(W64, true, Wrap(W64, true, t.sec * SECOND) + t.nanosec))
  }

  /** tf2 takes a count exactly when its normal split has seconds a message can hold. */
  lemma Tf2SplitAgrees(ns: int)
    ensures Tf2Split(ns).Some? <==> 0 <= ToMsg(ns).sec <= INT32_MAX
    ensures Tf2Split(ns).Some? ==> Tf2Split(ns).value == ToMsg(ns) == GenTimeStruct(ns)
  {
  }

  /** Joining does not wrap around. */
  lemma Tf2JoinAdds(t: Stamp)
    ensures Tf2Join(t).Some? <==> Normal(t) && 0 <= t.sec <= INT32_MAX
    ensures Tf2Join(t).Some? ==> Tf2Join(t).value == FromMsg(t) && 0 <= FromMsg(t) < INT64_MAX
  {
    if Tf2Join(t).Some? {
      WrapInRange(W64, true, t.sec * SECOND);
      WrapInRange(W64, true, t.sec * SECOND + t.nanosec);
    }
  }

  /**
   tf2 joins exactly the stamps it splits counts into, gives the same count back, and stays clear of the
   64-bit limit.
   */
  lemma Tf2RoundTrip(ns: int, t: Stamp)
    ensures Tf2Split(ns) == Some(t) <==> Tf2Join(t) == Some(ns)
    ensures Tf2Join(t).Some? ==> Tf2Join(t).value == FromMsg(t) && FromMsg(t) < INT64_MAX
  {
    ToMsgIsTheNormalStamp(ns, t);
    Tf2SplitAgrees(ns);
    Tf2JoinAdds(t);
  }

  /** The stamp of the transform message a buffer fills in. */
  class TransformStamp {
    var sec: int
    var nanosec: int

    constructor ()
      ensures sec == 0 && nanosec == 0
    {
      sec, nanosec := 0, 0;
    }

    /** Refuses a count outside the message's range before anything is written. */
    method SetStamp(ns: int) returns (ok: bool)
      modifies this
      ensures ok <==> 0 <= ns < (INT32_MAX + 1) * SECOND
      ensures ok ==> Stamp(sec, nanosec) == ToMsg(ns)
      ensures !ok ==> sec == old(sec) && nanosec == old(nanosec)
    {
      Tf2SplitAgrees(ns);
      ToMsgIsTheNormalStamp(ns, ToMsg(ns));
      if ns < 0 || TruncDiv(ns, SECOND) > INT32_MAX {
        return false;
      }
      sec := Wrap(W32, true, TruncDiv(ns, SECOND));
      nanosec := Wrap(W32, false, TruncRem(ns, SECOND));
      ok := true;
    }
  }
}
