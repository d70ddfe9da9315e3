/**
 Quality-of-service profiles: an Elixir map read into a C profile, field by field, and a C profile written
 back as a map, key by key. Durations are exact reals on the Elixir side and whole seconds and nanoseconds
 on the C side, so the first conversion quantizes.
 */
module Qos {
  import opened Wrappers

  datatype Key =
    | HistoryKey | DepthKey | ReliabilityKey | DurabilityKey | DeadlineKey | LifespanKey | LivelinessKey
    | LeaseDurationKey | AvoidConventionsKey | StructKey | OtherKey(id: nat)

  datatype Atom =
    | SystemDefault | KeepLast | KeepAll | Reliable | BestEffort | TransientLocal | Volatile | Automatic
    | Deprecated | ManualByTopic | Unknown | True | False | QosStruct | OtherAtom(id: nat)

  datatype Value = AtomV(atom: Atom) | IntV(number: int) | FloatV(float: real) | OtherV(id: nat)

  type Profile = map<Key, Value>

  // The C enumerations; Other stands for the constants the conversion does not know.
  datatype History = SystemDefaultHistory | KeepLastHistory | KeepAllHistory | UnknownHistory | OtherHistory(code: nat)
  datatype Reliability =
    | SystemDefaultReliability | ReliableReliability | BestEffortReliability | UnknownReliability
    | OtherReliability(code: nat)
  datatype Durability =
    | SystemDefaultDurability | TransientLocalDurability | VolatileDurability | UnknownDurability
    | OtherDurability(code: nat)
  datatype Liveliness =
    | SystemDefaultLiveliness | AutomaticLiveliness | ManualByTopicLiveliness | UnknownLiveliness
    | OtherLiveliness(code: nat)

  datatype CTime = CTime(sec: nat, nsec: nat)

  datatype CProfile = CProfile(
    history: History,
    depth: nat,
    reliability: Reliability,
    durability: Durability,
    deadline: CTime,
    lifespan: CTime,
    liveliness: Liveliness,
    lease: CTime,
    avoid: bool)

  const UINT32: nat := 0x1_0000_0000
  const UINT64: nat := 0x1_0000_0000_0000_0000
  const SECOND: nat := 1_000_000_000

  // ---------- one field at a time ----------

  function HistoryOf(v: Value): Option<History> {
    match v
    case AtomV(SystemDefault) => Some(SystemDefaultHistory)
    case AtomV(KeepLast) => Some(KeepLastHistory)
    case AtomV(KeepAll) => Some(KeepAllHistory)
    case AtomV(Unknown) => Some(UnknownHistory)
    case _ => None
  }

  function HistoryAtom(h: History): Option<Atom> {
    match h
    case SystemDefaultHistory => Some(SystemDefault)
    case KeepLastHistory => Some(KeepLast)
    case KeepAllHistory => Some(KeepAll)
    case UnknownHistory => Some(Unknown)
    case OtherHistory(_) => None
  }

  function ReliabilityOf(v: Value): Option<Reliability> {
    match v
    case AtomV(SystemDefault) => Some(SystemDefaultReliability)
    case AtomV(Reliable) => Some(ReliableReliability)
    case AtomV(BestEffort) => Some(BestEffortReliability)
    case AtomV(Unknown) => Some(UnknownReliability)
    case _ => None
  }

  function ReliabilityAtom(r: Reliability): Option<Atom> {
    match r
    case SystemDefaultReliability => Some(SystemDefault)
    case ReliableReliability => Some(Reliable)
    case BestEffortReliability => Some(BestEffort)
    case UnknownReliability => Some(Unknown)
    case OtherReliability(_) => None
  }

  function DurabilityOf(v: Value): Option<Durability> {
    match v
    case AtomV(SystemDefault) => Some(SystemDefaultDurability)
    case AtomV(TransientLocal) => Some(TransientLocalDurability)
    case AtomV(Volatile) => Some(VolatileDurability)
    case AtomV(Unknown) => Some(UnknownDurability)
    case _ => None
  }

  function DurabilityAtom(d: Durability): Option<Atom> {
    match d
    case SystemDefaultDurability => Some(SystemDefault)
    case TransientLocalDurability => Some(TransientLocal)
    case VolatileDurability => Some(Volatile)
    case UnknownDurability => Some(Unknown)
    case OtherDurability(_) => None
  }

  function LivelinessOf(v: Value): Option<Liveliness> {
    match v
    case AtomV(SystemDefault) => Some(SystemDefaultLiveliness)
    case AtomV(Automatic) => Some(AutomaticLiveliness)
    case AtomV(ManualByTopic) => Some(ManualByTopicLiveliness)
    case AtomV(Unknown) => Some(UnknownLiveliness)
    case _ => None
  }

  function LivelinessAtom(l: Liveliness): Option<Atom> {
    match l
    case SystemDefaultLiveliness => Some(SystemDefault)
    case AutomaticLiveliness => Some(Automatic)
    case ManualByTopicLiveliness => Some(ManualByTopic)
    case UnknownLiveliness => Some(Unknown)
    case OtherLiveliness(_) => None
  }

  function Trunc(r: real): int {
    if r >= 0.0 then r.Floor else -(-r).Floor
  }

  /** What C makes of a number whose whole part no uint64 holds: undefined, so the claims hold for every choice. */
  type Cast = real -> nat

  function ToUint64(cast: Cast, r: real): nat {
    if 0 <= Trunc(r) < UINT64 then Trunc(r) else cast(r) % UINT64
  }

  /** Whole seconds, then whole nanoseconds of what is left, both cut off toward zero. */
  function TimeOf(cast: Cast, d: real): CTime {
    var whole := Trunc(d) as real;
    CTime(ToUint64(cast, whole), ToUint64(cast, (d - whole) * SECOND as real))
  }

  function Seconds(t: CTime): real {
    t.sec as real + t.nsec as real / SECOND as real
  }

  // ---------- the whole map ----------

  /** Whether a field takes a value. */
  predicate Takes(k: Key, v: Value) {
    match k
    case HistoryKey => HistoryOf(v).Some?
    case DepthKey => v.IntV? && 0 <= v.number < UINT32
    case ReliabilityKey => ReliabilityOf(v).Some?
    case DurabilityKey => DurabilityOf(v).Some?
    case DeadlineKey | LifespanKey | LeaseDurationKey => v.FloatV?
    case LivelinessKey => LivelinessOf(v).Some?
    case AvoidConventionsKey => v == AtomV(True) || v == AtomV(False)
    case _ => true
  }

  datatype Verdict = Fine | BadArg | Raised

  /** The outcome of reading one field. */
  function FieldVerdict(m: Profile, k: Key): Verdict {
    if k !in m then BadArg else if !Takes(k, m[k]) then Raised else Fine
  }

  function Then(v: Verdict, rest: Verdict): Verdict {
    if v == Fine then rest else v
  }

  /** The fields in the order they are read, in two halves. */
  function QueueVerdict(m: Profile): Verdict {
    Then(FieldVerdict(m, HistoryKey), Then(FieldVerdict(m, DepthKey), Then(FieldVerdict(m, ReliabilityKey),
      FieldVerdict(m, DurabilityKey))))
  }

  function TimingVerdict(m: Profile): Verdict {
    Then(FieldVerdict(m, DeadlineKey), Then(FieldVerdict(m, LifespanKey), Then(FieldVerdict(m, LivelinessKey),
      Then(FieldVerdict(m, LeaseDurationKey), FieldVerdict(m, AvoidConventionsKey)))))
  }

  /** The first field that is missing or does not take its value decides. */
  function VerdictOn(m: Profile): Verdict {
    if |m| != 10 then BadArg else Then(QueueVerdict(m), TimingVerdict(m))
  }

  predicate Has(m: Profile, k: Key) {
    k in m && Takes(k, m[k])
  }

  /** All nine fields are there with values they take. */
  predicate Complete(m: Profile) {
    && Has(m, HistoryKey) && Has(m, DepthKey) && Has(m, ReliabilityKey) && Has(m, DurabilityKey)
    && Has(m, DeadlineKey) && Has(m, LifespanKey) && Has(m, LivelinessKey) && Has(m, LeaseDurationKey)
    && Has(m, AvoidConventionsKey)
  }

  predicate DurationAt(m: Profile, k: Key) {
    k in m && m[k].FloatV? ==> 0.0 <= m[k].float < UINT64 as real
  }

  /** The durations C can convert: others have no defined value there. */
  predicate InRange(m: Profile) {
    DurationAt(m, DeadlineKey) && DurationAt(m, LifespanKey) && DurationAt(m, LeaseDurationKey)
  }

  function Decoded(cast: Cast, m: Profile): CProfile
    requires Complete(m)
  {
    CProfile(
      HistoryOf(m[HistoryKey]).value,
      m[DepthKey].number,
      ReliabilityOf(m[ReliabilityKey]).value,
      DurabilityOf(m[DurabilityKey]).value,
      TimeOf(cast, m[DeadlineKey].float),
      TimeOf(cast, m[LifespanKey].float),
      LivelinessOf(m[LivelinessKey]).value,
      TimeOf(cast, m[LeaseDurationKey].float),
      m[AvoidConventionsKey] == AtomV(True))
  }

  predicate Known(c: CProfile) {
    && HistoryAtom(c.history).Some? && ReliabilityAtom(c.reliability).Some?
    && DurabilityAtom(c.durability).Some? && LivelinessAtom(c.liveliness).Some?
  }

  /** p is the map written for c, key by key. */
  ghost predicate Writes(p: Profile, c: CProfile) {
    && p.Keys == KEYS
    && HistoryAtom(c.history).Some? && p[HistoryKey] == AtomV(HistoryAtom(c.history).value)
    && p[DepthKey] == IntV(c.depth % UINT32)
    && ReliabilityAtom(c.reliability).Some? && p[ReliabilityKey] == AtomV(ReliabilityAtom(c.reliability).value)
    && DurabilityAtom(c.durability).Some? && p[DurabilityKey] == AtomV(DurabilityAtom(c.durability).value)
    && p[DeadlineKey] == FloatV(Seconds(c.deadline)) && p[LifespanKey] == FloatV(Seconds(c.lifespan))
    && LivelinessAtom(c.liveliness).Some? && p[LivelinessKey] == AtomV(LivelinessAtom(c.liveliness).value)
    && p[LeaseDurationKey] == FloatV(Seconds(c.lease))
    && p[AvoidConventionsKey] == AtomV(if c.avoid then True else False)
    && p[StructKey] == AtomV(QosStruct)
  }

  const KEYS: set<Key> := {
    HistoryKey, DepthKey, ReliabilityKey, DurabilityKey, DeadlineKey, LifespanKey, LivelinessKey, LeaseDurationKey,
    AvoidConventionsKey, StructKey}

  /** A C profile, as the conversion fills it in; a raised error leaves it half written. */
  class QosProfile {
    var history: History
    var depth: nat
    var reliability: Reliability
    var durability: Durability
    var deadline: CTime
    var lifespan: CTime
    var liveliness: Liveliness
    var lease: CTime
    var avoid: bool

    constructor () {
      history, depth, reliability, durability := UnknownHistory, 0, UnknownReliability, UnknownDurability;
      deadline, lifespan, liveliness, lease, avoid := CTime(0, 0), CTime(0, 0), UnknownLiveliness, CTime(0, 0), false;
    }

    function Value(): CProfile
      reads this
    {
      CProfile(history, depth, reliability, durability, deadline, lifespan, liveliness, lease, avoid)
    }

    ghost predicate QueueRead(m: Profile)
      reads this
    {
      && Has(m, HistoryKey) && Has(m, DepthKey) && Has(m, ReliabilityKey) && Has(m, DurabilityKey)
      && history == HistoryOf(m[HistoryKey]).value && depth == m[DepthKey].number
      && reliability == ReliabilityOf(m[ReliabilityKey]).value && durability == DurabilityOf(m[DurabilityKey]).value
    }

    ghost predicate TimingRead(cast: Cast, m: Profile)
      reads this
    {
      && Has(m, DeadlineKey) && Has(m, LifespanKey) && Has(m, LivelinessKey) && Has(m, LeaseDurationKey)
      && Has(m, AvoidConventionsKey)
      && deadline == TimeOf(cast, m[DeadlineKey].float) && lifespan == TimeOf(cast, m[LifespanKey].float)
      && liveliness == LivelinessOf(m[LivelinessKey]).value && lease == TimeOf(cast, m[LeaseDurationKey].float)
      && avoid == (m[AvoidConventionsKey] == AtomV(True))
    }

    method ReadQueue(m: Profile) returns (verdict: Verdict)
      modifies `history, `depth, `reliability, `durability
      ensures verdict == QueueVerdict(m)
      ensures verdict == Fine ==> QueueRead(m)
    {
      verdict := FieldVerdict(m, HistoryKey);
      if verdict != Fine { return; }
      history := HistoryOf(m[HistoryKey]).value;

      verdict := FieldVerdict(m, DepthKey);
      if verdict != Fine { return; }
      depth := m[DepthKey].number;

      verdict := FieldVerdict(m, ReliabilityKey);
      if verdict != Fine { return; }
      reliability := ReliabilityOf(m[ReliabilityKey]).value;

      verdict := FieldVerdict(m, DurabilityKey);
      if verdict != Fine { return; }
      durability := DurabilityOf(m[DurabilityKey]).value;
    }

    method ReadTiming(cast: Cast, m: Profile) returns (verdict: Verdict)
      modifies `deadline, `lifespan, `liveliness, `lease, `avoid
      ensures verdict == TimingVerdict(m)
      ensures verdict == Fine ==> TimingRead(cast, m)
    {
      verdict := FieldVerdict(m, DeadlineKey);
      if verdict != Fine { return; }
      deadline := TimeOf(cast, m[DeadlineKey].float);

      verdict := FieldVerdict(m, LifespanKey);
      if verdict != Fine { return; }
      lifespan := TimeOf(cast, m[LifespanKey].float);

      verdict := FieldVerdict(m, LivelinessKey);
      if verdict != Fine { return; }
      liveliness := LivelinessOf(m[LivelinessKey]).value;

      verdict := FieldVerdict(m, LeaseDurationKey);
      if verdict != Fine { return; }
      lease := TimeOf(cast, m[LeaseDurationKey].float);

      verdict := FieldVerdict(m, AvoidConventionsKey);
      if verdict != Fine { return; }
      avoid := m[AvoidConventionsKey] == AtomV(True);
    }

    method GetCQosProfile(cast: Cast, m: Profile) returns (verdict: Verdict)
      modifies this
      ensures verdict == VerdictOn(m)
      ensures verdict == Fine ==> Complete(m) && Value() == Decoded(cast, m)
    {
      if |m| != 10 {
        return BadArg;
      }
      verdict := ReadQueue(m);
      if verdict == Fine {
        verdict := ReadTiming(cast, m);
      }
    }

    method GetExQosProfile() returns (m: Option<Profile>)
      ensures m.Some? <==> Known(Value())
      ensures m.Some? ==> Writes(m.value, Value())
    {
      var p: Profile := map[];
      match HistoryAtom(history) {
        case None => return None;
        case Some(a) => p := p[HistoryKey := AtomV(a)];
      }
      p := p[DepthKey := IntV(depth % UINT32)];
      match ReliabilityAtom(reliability) {
        case None => return None;
        case Some(a) => p := p[ReliabilityKey := AtomV(a)];
      }
      match DurabilityAtom(durability) {
        case None => return None;
        case Some(a) => p := p[DurabilityKey := AtomV(a)];
      }
      p := p[DeadlineKey := FloatV(Seconds(deadline))];
      p := p[LifespanKey := FloatV(Seconds(lifespan))];
      match LivelinessAtom(liveliness) {
        case None => return None;
        case Some(a) => p := p[LivelinessKey := AtomV(a)];
      }
      p := p[LeaseDurationKey := FloatV(Seconds(lease))];
      p := p[AvoidConventionsKey := AtomV(if avoid then True else False)];
      p := p[StructKey := AtomV(QosStruct)];
      return Some(p);
    }
  }

  // ---------- durations ----------

  lemma TimeDefined(cast: Cast, d: real)
    requires 0.0 <= d < UINT64 as real
    ensures TimeOf(cast, d) == CTime(d.Floor, ((d - d.Floor as real) * SECOND as real).Floor)
  {
    var rest := d - d.Floor as real;
    assert 0.0 <= rest * SECOND as real < SECOND as real;
  }

  /** Out and back loses less than a nanosecond, and never gains. */
  lemma TimeTruncates(cast: Cast, d: real)
    requires 0.0 <= d < UINT64 as real
    ensures TimeOf(cast, d).nsec < SECOND
    ensures 0.0 <= d - Seconds(TimeOf(cast, d)) < 1.0 / SECOND as real
  {
    TimeDefined(cast, d);
  }

  /** Back and out keeps the total, with the nanoseconds brought below one second. */
  lemma TimeNormalizes(cast: Cast, t: CTime)
    requires Fits(t)
    ensures 0.0 <= Seconds(t) < UINT64 as real
    ensures TimeOf(cast, Seconds(t)) == CTime(t.sec + t.nsec / SECOND, t.nsec % SECOND)
  {
    var (q, r) := (t.nsec / SECOND, t.nsec % SECOND);
    assert t.nsec == q * SECOND + r;
    assert Seconds(t) == (t.sec + q) as real + r as real / SECOND as real;
    assert Seconds(t).Floor == t.sec + q;
    TimeDefined(cast, Seconds(t));
  }

  predicate Fits(t: CTime) {
    t.sec + t.nsec / SECOND < UINT64
  }

  // ---------- profiles ----------

  lemma FineMeansComplete(m: Profile)
    ensures VerdictOn(m) == Fine <==> |m| == 10 && Complete(m)
  {
  }

  /** The fields, in the order they are read. */
  const ORDER: seq<Key> := [
    HistoryKey, DepthKey, ReliabilityKey, DurabilityKey, DeadlineKey, LifespanKey, LivelinessKey, LeaseDurationKey,
    AvoidConventionsKey]

  /** Fields before the i-th are there with values they take. */
  predicate FineBefore(m: Profile, i: nat)
    requires i <= |ORDER|
  {
    forall j | 0 <= j < i :: ORDER[j] in m && Takes(ORDER[j], m[ORDER[j]])
  }

  /**
   The verdict, told from the map: a bad argument if it has not ten keys; else the first field that is not there
   with a value it takes decides, a bad argument if it is missing and an error if it is not.
   */
  lemma VerdictFromMap(m: Profile)
    ensures |m| != 10 ==> VerdictOn(m) == BadArg
    ensures |m| == 10 && FineBefore(m, |ORDER|) ==> VerdictOn(m) == Fine
    ensures forall i: nat | |m| == 10 && i < |ORDER| && FineBefore(m, i) && ORDER[i] !in m :: VerdictOn(m) == BadArg
    ensures forall i: nat | |m| == 10 && i < |ORDER| && FineBefore(m, i) && ORDER[i] in m ::
              !Takes(ORDER[i], m[ORDER[i]]) ==> VerdictOn(m) == Raised
  {
    if FineBefore(m, |ORDER|) {
      FieldsInOrder(m, |ORDER|);
    }
    forall i: nat | |m| == 10 && i < |ORDER| && FineBefore(m, i) && !Has(m, ORDER[i])
      ensures VerdictOn(m) == if ORDER[i] in m then Raised else BadArg
    {
      FirstBadField(m, i);
    }
  }

  lemma FieldsInOrder(m: Profile, i: nat)
    requires i <= |ORDER| && FineBefore(m, i)
    ensures 0 < i ==> Has(m, HistoryKey)
    ensures 1 < i ==> Has(m, DepthKey)
    ensures 2 < i ==> Has(m, ReliabilityKey)
    ensures 3 < i ==> Has(m, DurabilityKey)
    ensures 4 < i ==> Has(m, DeadlineKey)
    ensures 5 < i ==> Has(m, LifespanKey)
    ensures 6 < i ==> Has(m, LivelinessKey)
    ensures 7 < i ==> Has(m, LeaseDurationKey)
    ensures 8 < i ==> Has(m, AvoidConventionsKey)
  {
    assert forall j: nat | j < i :: Has(m, ORDER[j]);
    assert ORDER[0] == HistoryKey && ORDER[1] == DepthKey && ORDER[2] == ReliabilityKey;
    assert ORDER[3] == DurabilityKey && ORDER[4] == DeadlineKey && ORDER[5] == LifespanKey;
    assert ORDER[6] == LivelinessKey && ORDER[7] == LeaseDurationKey && ORDER[8] == AvoidConventionsKey;
  }

  lemma FirstBadField(m: Profile, i: nat)
    requires |m| == 10 && i < |ORDER| && FineBefore(m, i) && !Has(m, ORDER[i])
    ensures VerdictOn(m) == if ORDER[i] in m then Raised else BadArg
  {
    FieldsInOrder(m, i);
    assert FieldVerdict(m, ORDER[i]) == if ORDER[i] in m then Raised else BadArg;
  }

  /** Each atom stands for the C constant of its name, and the deprecated one for none. */
  lemma PoliciesByName(a: Atom)
    ensures HistoryOf(AtomV(a)) ==
            if a == SystemDefault then Some(SystemDefaultHistory) else if a == KeepLast then Some(KeepLastHistory)
            else if a == KeepAll then Some(KeepAllHistory) else if a == Unknown then Some(UnknownHistory) else None
    ensures ReliabilityOf(AtomV(a)) ==
            if a == SystemDefault then Some(SystemDefaultReliability)
            else if a == Reliable then Some(ReliableReliability)
            else if a == BestEffort then Some(BestEffortReliability)
            else if a == Unknown then Some(UnknownReliability) else None
    ensures DurabilityOf(AtomV(a)) ==
            if a == SystemDefault then Some(SystemDefaultDurability)
            else if a == TransientLocal then Some(TransientLocalDurability)
            else if a == Volatile then Some(VolatileDurability)
            else if a == Unknown then Some(UnknownDurability) else None
    ensures LivelinessOf(AtomV(a)) ==
            if a == SystemDefault then Some(SystemDefaultLiveliness)
            else if a == Automatic then Some(AutomaticLiveliness)
            else if a == ManualByTopic then Some(ManualByTopicLiveliness)
            else if a == Unknown then Some(UnknownLiveliness) else None
  {
  }

  lemma WrittenSize(p: Profile, c: CProfile)
    requires Writes(p, c)
    ensures |p| == 10
  {
  }

  /** A C profile whose durations do not overflow when seconds and nanoseconds are added up. */
  predicate DurationsFit(c: CProfile) {
    Fits(c.deadline) && Fits(c.lifespan) && Fits(c.lease)
  }

  lemma WrittenIsComplete(p: Profile, c: CProfile)
    requires Writes(p, c)
    ensures Complete(p)
  {
  }

  function Normal(t: CTime): CTime {
    CTime(t.sec + t.nsec / SECOND, t.nsec % SECOND)
  }

  /**
   A C profile written out is read back, with only its depth cut to 32 bits and its nanoseconds carried
   into the seconds; the total of every duration is kept.
   */
  lemma CRoundTrip(cast: Cast, p: Profile, c: CProfile)
    requires Writes(p, c) && DurationsFit(c)
    ensures VerdictOn(p) == Fine && Complete(p) && InRange(p)
    ensures Decoded(cast, p) == c.(
              depth := c.depth % UINT32, deadline := Normal(c.deadline), lifespan := Normal(c.lifespan),
              lease := Normal(c.lease))
  {
    WrittenIsComplete(p, c);
    WrittenSize(p, c);
    FineMeansComplete(p);
    TimeNormalizes(cast, c.deadline);
    TimeNormalizes(cast, c.lifespan);
    TimeNormalizes(cast, c.lease);
  }

  lemma NormalIsSame(t: CTime)
    ensures Normal(t) == t <==> t.nsec < SECOND
  {
  }

  /** So it comes back as it was exactly when depth fits 32 bits and all nanoseconds are below one second. */
  lemma CRoundTripExact(cast: Cast, p: Profile, c: CProfile)
    requires Writes(p, c) && DurationsFit(c)
    ensures Complete(p) && InRange(p)
    ensures Decoded(cast, p) == c <==>
              c.depth < UINT32 && c.deadline.nsec < SECOND && c.lifespan.nsec < SECOND && c.lease.nsec < SECOND
  {
    CRoundTrip(cast, p, c);
    NormalIsSame(c.deadline);
    NormalIsSame(c.lifespan);
    NormalIsSame(c.lease);
  }

  predicate Loses(before: Value, after: Value) {
    before.FloatV? && after.FloatV? && 0.0 <= before.float - after.float < 1.0 / SECOND as real
  }

  lemma DecodedIsKnown(cast: Cast, m: Profile)
    requires Complete(m)
    ensures Known(Decoded(cast, m)) && Decoded(cast, m).depth < UINT32
  {
  }

  lemma DecodedFits(cast: Cast, m: Profile)
    requires Complete(m) && InRange(m)
    ensures var c := Decoded(cast, m);
            && DurationsFit(c) && c.depth < UINT32
            && Normal(c.deadline) == c.deadline && Normal(c.lifespan) == c.lifespan && Normal(c.lease) == c.lease
  {
    TimeDefined(cast, m[DeadlineKey].float);
    TimeDefined(cast, m[LifespanKey].float);
    TimeDefined(cast, m[LeaseDurationKey].float);
    TimeTruncates(cast, m[DeadlineKey].float);
    TimeTruncates(cast, m[LifespanKey].float);
    TimeTruncates(cast, m[LeaseDurationKey].float);
  }

  predicate KeepsPolicy(m: Profile, back: Profile, k: Key) {
    k in m && k in back && back[k] == m[k]
  }

  predicate KeepsTime(m: Profile, back: Profile, k: Key) {
    k in m && k in back && Loses(m[k], back[k])
  }

  lemma PoliciesKept(cast: Cast, m: Profile, back: Profile)
    requires Complete(m) && Writes(back, Decoded(cast, m))
    ensures KeepsPolicy(m, back, HistoryKey) && KeepsPolicy(m, back, DepthKey)
    ensures KeepsPolicy(m, back, ReliabilityKey) && KeepsPolicy(m, back, DurabilityKey)
    ensures KeepsPolicy(m, back, LivelinessKey) && KeepsPolicy(m, back, AvoidConventionsKey)
  {
  }

  lemma TimesKept(cast: Cast, m: Profile, back: Profile)
    requires Complete(m) && InRange(m) && Writes(back, Decoded(cast, m))
    ensures KeepsTime(m, back, DeadlineKey) && KeepsTime(m, back, LifespanKey) && KeepsTime(m, back, LeaseDurationKey)
  {
    TimeTruncates(cast, m[DeadlineKey].float);
    TimeTruncates(cast, m[LifespanKey].float);
    TimeTruncates(cast, m[LeaseDurationKey].float);
  }

  /**
   Every accepted Elixir profile comes back from C with the same policies and depth, each duration short by
   less than a nanosecond; a second trip changes nothing more.
   */
  lemma ElixirRoundTrip(cast: Cast, m: Profile, back: Profile)
    requires VerdictOn(m) == Fine && Complete(m) && InRange(m) && Writes(back, Decoded(cast, m))
    ensures forall k | k in {HistoryKey, DepthKey, ReliabilityKey, DurabilityKey, LivelinessKey, AvoidConventionsKey} ::
              KeepsPolicy(m, back, k)
    ensures forall k | k in {DeadlineKey, LifespanKey, LeaseDurationKey} :: KeepsTime(m, back, k)
    ensures VerdictOn(back) == Fine && Complete(back) && InRange(back) && Decoded(cast, back) == Decoded(cast, m)
  {
    PoliciesKept(cast, m, back);
    TimesKept(cast, m, back);
    DecodedFits(cast, m);
    CRoundTrip(cast, back, Decoded(cast, m));
  }

  /** The conversions in sequence: a profile the C side accepts is always given back. */
  method ThereAndBack(cast: Cast, m: Profile) returns (verdict: Verdict, back: Option<Profile>)
    ensures verdict == VerdictOn(m)
    ensures verdict != Fine <==> back.None?
    ensures verdict == Fine ==> Complete(m) && Writes(back.value, Decoded(cast, m))
  {
    var c := new QosProfile();
    verdict := c.GetCQosProfile(cast, m);
    back := None;
    if verdict == Fine {
      DecodedIsKnown(cast, m);
      back := c.GetExQosProfile();
    }
  }
}
