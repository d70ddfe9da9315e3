/** The schemas of four generated codecs, and what the codec theorems say of their messages. */
module Messages {
  import opened Codec
  import opened CodecTheorems

  const INT32 := Leaf(IntS(W32, true))
  const UINT8 := Leaf(IntS(W8, false))
  const UINT32 := Leaf(IntS(W32, false))
  const INT64 := Leaf(IntS(W64, true))
  const UINT64 := Leaf(IntS(W64, false))
  const FLOAT32 := Leaf(FloatS(true))
  const FLOAT64 := Leaf(FloatS(false))
  const BOOL := Leaf(BoolS)
  const STRING := Leaf(StringS)

  const TIME := StructS([INT32, UINT32])
  const HEADER := StructS([TIME, STRING])
  const POINT32 := StructS([FLOAT32, FLOAT32, FLOAT32])
  const CHANNEL := StructS([STRING, SeqS(FLOAT32)])
  const POINT_CLOUD := StructS([HEADER, SeqS(POINT32), SeqS(CHANNEL)])

  const FLOATING_POINT_RANGE := StructS([FLOAT64, FLOAT64, FLOAT64])
  const INTEGER_RANGE := StructS([INT64, INT64, UINT64])
  const PARAMETER_DESCRIPTOR :=
    StructS([STRING, UINT8, STRING, STRING, BOOL, BOOL, SeqS(FLOATING_POINT_RANGE), SeqS(INTEGER_RANGE)])

  const DIMENSION := StructS([STRING, UINT32, UINT32])
  const UINT32_MULTI_ARRAY := StructS([StructS([SeqS(DIMENSION), UINT32]), SeqS(UINT32)])

  const UUID_SIZE: nat := 16
  const UUID := StructS([Leaf(BytesS(UUID_SIZE))])
  const GOAL_INFO := StructS([UUID, TIME])

  // ---------- sensor_msgs/msg/PointCloud ----------

  datatype Point32 = Point32(x: Num, y: Num, z: Num)
  datatype ChannelFloat32 = ChannelFloat32(name: seq<Byte>, values: seq<Num>)
  datatype PointCloud = PointCloud(
    sec: int, nanosec: int, frameId: seq<Byte>, points: seq<Point32>, channels: seq<ChannelFloat32>)

  predicate Float32(narrow: Narrow, n: Num) {
    n.Finite? ==> Representable(narrow, n.r)
  }

  predicate ValidPointCloud(narrow: Narrow, c: PointCloud) {
    && InRange(W32, true, c.sec) && InRange(W32, false, c.nanosec)
    && (forall p | p in c.points :: Float32(narrow, p.x) && Float32(narrow, p.y) && Float32(narrow, p.z))
    && forall ch | ch in c.channels :: forall v | v in ch.values :: Float32(narrow, v)
  }

  function PointTerm(p: Point32): Term {
    TupleT([FromNum(p.x), FromNum(p.y), FromNum(p.z)])
  }

  function ChannelTerm(c: ChannelFloat32): Term {
    TupleT([BinT(c.name), ListT(seq(|c.values|, i requires 0 <= i < |c.values| => FromNum(c.values[i])))])
  }

  function PointCloudTerm(c: PointCloud): Term {
    TupleT([
      TupleT([TupleT([IntT(c.sec), IntT(c.nanosec)]), BinT(c.frameId)]),
      ListT(seq(|c.points|, i requires 0 <= i < |c.points| => PointTerm(c.points[i]))),
      ListT(seq(|c.channels|, i requires 0 <= i < |c.channels| => ChannelTerm(c.channels[i])))])
  }

  lemma PointTyped(narrow: Narrow, p: Point32)
    requires Float32(narrow, p.x) && Float32(narrow, p.y) && Float32(narrow, p.z)
    ensures WellTyped(narrow, POINT32, PointTerm(p))
  {
  }

  lemma ChannelTyped(narrow: Narrow, c: ChannelFloat32)
    requires forall v | v in c.values :: Float32(narrow, v)
    ensures WellTyped(narrow, CHANNEL, ChannelTerm(c))
  {
    var (fs, t) := ([STRING, SeqS(FLOAT32)], ChannelTerm(c));
    assert WellTyped(narrow, fs[1], t.elems[1]) by {
      forall i | 0 <= i < |c.values| ensures WellTyped(narrow, FLOAT32, t.elems[1].items[i]) {
        assert c.values[i] in c.values;
      }
    }
  }

  /** A point cloud with integers in range and representable floats survives the native message unchanged. */
  lemma PointCloudRoundTrip(narrow: Narrow, c: PointCloud, prior: Term)
    requires ValidPointCloud(narrow, c)
    ensures WellTyped(narrow, POINT_CLOUD, PointCloudTerm(c))
    ensures Wide(POINT_CLOUD, PointCloudTerm(c)) && Accepts(POINT_CLOUD, PointCloudTerm(c))
    ensures ReadBack(narrow, POINT_CLOUD, PointCloudTerm(c), prior) == PointCloudTerm(c)
  {
    var t := PointCloudTerm(c);
    assert WellTyped(narrow, TIME, t.elems[0].elems[0]);
    assert WellTyped(narrow, HEADER, t.elems[0]);
    forall i | 0 <= i < |c.points| ensures WellTyped(narrow, POINT32, t.elems[1].items[i]) {
      assert c.points[i] in c.points;
      PointTyped(narrow, c.points[i]);
    }
    forall i | 0 <= i < |c.channels| ensures WellTyped(narrow, CHANNEL, t.elems[2].items[i]) {
      assert c.channels[i] in c.channels;
      ChannelTyped(narrow, c.channels[i]);
    }
    assert WellTyped(narrow, SeqS(POINT32), t.elems[1]) && WellTyped(narrow, SeqS(CHANNEL), t.elems[2]);
    RoundTrip(narrow, POINT_CLOUD, t, prior);
  }

  // ---------- rcl_interfaces/msg/ParameterDescriptor ----------

  datatype FloatRange = FloatRange(from: Num, to: Num, step: Num)
  datatype IntRange = IntRange(from: int, to: int, step: int)
  datatype ParameterDescriptor = ParameterDescriptor(
    name: seq<Byte>, kind: int, description: seq<Byte>, constraints: seq<Byte>,
    readOnly: bool, dynamicTyping: bool, floats: seq<FloatRange>, ints: seq<IntRange>)

  predicate ValidIntRange(r: IntRange) {
    InRange(W64, true, r.from) && InRange(W64, true, r.to) && InRange(W64, false, r.step)
  }

  function FloatRangeTerm(r: FloatRange): Term {
    TupleT([FromNum(r.from), FromNum(r.to), FromNum(r.step)])
  }

  function IntRangeTerm(r: IntRange): Term {
    TupleT([IntT(r.from), IntT(r.to), IntT(r.step)])
  }

  function DescriptorTerm(d: ParameterDescriptor): Term {
    TupleT([
      BinT(d.name), IntT(d.kind), BinT(d.description), BinT(d.constraints),
      FromBool(d.readOnly), FromBool(d.dynamicTyping),
      ListT(seq(|d.floats|, i requires 0 <= i < |d.floats| => FloatRangeTerm(d.floats[i]))),
      ListT(seq(|d.ints|, i requires 0 <= i < |d.ints| => IntRangeTerm(d.ints[i])))])
  }

  lemma RangesTyped(narrow: Narrow, f: FloatRange, r: IntRange)
    ensures WellTyped(narrow, FLOATING_POINT_RANGE, FloatRangeTerm(f))
    ensures ValidIntRange(r) ==> WellTyped(narrow, INTEGER_RANGE, IntRangeTerm(r))
  {
  }

  lemma DescriptorFields(narrow: Narrow, d: ParameterDescriptor)
    requires forall r | r in d.ints :: ValidIntRange(r)
    ensures WellTyped(narrow, SeqS(FLOATING_POINT_RANGE), DescriptorTerm(d).elems[6])
    ensures WellTyped(narrow, SeqS(INTEGER_RANGE), DescriptorTerm(d).elems[7])
  {
    var t := DescriptorTerm(d);
    forall i | 0 <= i < |d.floats| ensures WellTyped(narrow, FLOATING_POINT_RANGE, t.elems[6].items[i]) {
      RangesTyped(narrow, d.floats[i], IntRange(0, 0, 0));
    }
    forall i | 0 <= i < |d.ints| ensures WellTyped(narrow, INTEGER_RANGE, t.elems[7].items[i]) {
      assert d.ints[i] in d.ints;
      RangesTyped(narrow, FloatRange(NaN, NaN, NaN), d.ints[i]);
    }
  }

  /** A descriptor with its integers in range survives unchanged; double fields need no condition at all. */
  lemma DescriptorRoundTrip(narrow: Narrow, d: ParameterDescriptor, prior: Term)
    requires InRange(W8, false, d.kind) && forall r | r in d.ints :: ValidIntRange(r)
    ensures WellTyped(narrow, PARAMETER_DESCRIPTOR, DescriptorTerm(d))
    ensures Wide(PARAMETER_DESCRIPTOR, DescriptorTerm(d)) && Accepts(PARAMETER_DESCRIPTOR, DescriptorTerm(d))
    ensures ReadBack(narrow, PARAMETER_DESCRIPTOR, DescriptorTerm(d), prior) == DescriptorTerm(d)
  {
    var (fs, t) := (PARAMETER_DESCRIPTOR.fields, DescriptorTerm(d));
    DescriptorFields(narrow, d);
    forall i | 0 <= i < |fs| ensures WellTyped(narrow, fs[i], t.elems[i]) {
    }
    RoundTrip(narrow, PARAMETER_DESCRIPTOR, t, prior);
  }

  lemma KindReduced(narrow: Narrow, kind: int, prior: Term)
    requires InRange(W32, false, kind)
    ensures Accepts(UINT8, IntT(kind)) && ReadBack(narrow, UINT8, IntT(kind), prior) == IntT(kind % 0x100)
  {
  }

  lemma TypedField(narrow: Narrow, d: ParameterDescriptor, i: nat)
    requires InRange(W8, false, d.kind) && (forall r | r in d.ints :: ValidIntRange(r)) && i < 8
    ensures WellTyped(narrow, PARAMETER_DESCRIPTOR.fields[i], DescriptorTerm(d).elems[i])
  {
    DescriptorRoundTrip(narrow, d, DescriptorTerm(d));
  }

  lemma OtherFields(d: ParameterDescriptor, kind: int, i: nat)
    requires i < 8 && i != 1
    ensures DescriptorTerm(d.(kind := kind)).elems[i] == DescriptorTerm(d).elems[i]
  {
  }

  lemma DescriptorField(narrow: Narrow, d: ParameterDescriptor, prior: Term, i: nat)
    requires InRange(W32, false, d.kind) && (forall r | r in d.ints :: ValidIntRange(r)) && i < 8
    ensures var (schema, t) := (PARAMETER_DESCRIPTOR.fields[i], DescriptorTerm(d).elems[i]);
            && Wide(schema, t) && Accepts(schema, t)
            && ReadBack(narrow, schema, t, prior) == DescriptorTerm(d.(kind := d.kind % 0x100)).elems[i]
  {
    if i == 1 {
      KindReduced(narrow, d.kind, prior);
    } else {
      var kind := d.kind % 0x100;
      TypedField(narrow, d.(kind := kind), i);
      OtherFields(d, kind, i);
      RoundTrip(narrow, PARAMETER_DESCRIPTOR.fields[i], DescriptorTerm(d).elems[i], prior);
    }
  }

  lemma DescriptorBack(narrow: Narrow, d: ParameterDescriptor, prior: Term)
    requires InRange(W32, false, d.kind) && forall r | r in d.ints :: ValidIntRange(r)
    ensures Wide(PARAMETER_DESCRIPTOR, DescriptorTerm(d)) && Accepts(PARAMETER_DESCRIPTOR, DescriptorTerm(d))
    ensures ReadBack(narrow, PARAMETER_DESCRIPTOR, DescriptorTerm(d), prior)
            == DescriptorTerm(d.(kind := d.kind % 0x100))
  {
    var (fs, t, kept) := (PARAMETER_DESCRIPTOR.fields, DescriptorTerm(d), DescriptorTerm(d.(kind := d.kind % 0x100)));
    forall i | 0 <= i < |fs|
      ensures Wide(fs[i], t.elems[i]) && Accepts(fs[i], t.elems[i])
      ensures ReadBack(narrow, fs[i], t.elems[i], Field(prior, fs, i)) == kept.elems[i]
    {
      DescriptorField(narrow, d, Field(prior, fs, i), i);
    }
    StructAccepted(narrow, fs, t, prior, kept.elems);
  }

  /**
   The type field is one byte but is read as 32 bits: a descriptor with a larger type is accepted and comes
   back with the type reduced and all else kept, so it survives exactly when its type fits the byte.
   */
  lemma DescriptorTypeReduced(narrow: Narrow, d: ParameterDescriptor, prior: Term)
    requires InRange(W32, false, d.kind) && forall r | r in d.ints :: ValidIntRange(r)
    ensures Wide(PARAMETER_DESCRIPTOR, DescriptorTerm(d)) && Accepts(PARAMETER_DESCRIPTOR, DescriptorTerm(d))
    ensures var back := ReadBack(narrow, PARAMETER_DESCRIPTOR, DescriptorTerm(d), prior);
            && back == DescriptorTerm(d.(kind := d.kind % 0x100))
            && (back == DescriptorTerm(d) <==> d.kind < 0x100)
  {
    DescriptorBack(narrow, d, prior);
    DescriptorKinds(d, d.kind % 0x100);
  }

  lemma DescriptorKinds(d: ParameterDescriptor, kind: int)
    ensures DescriptorTerm(d.(kind := kind)) == DescriptorTerm(d) <==> kind == d.kind
  {
    assert DescriptorTerm(d.(kind := kind)).elems[1] == IntT(kind) && DescriptorTerm(d).elems[1] == IntT(d.kind);
    assert kind == d.kind ==> d.(kind := kind) == d;
  }

  // ---------- std_msgs/msg/UInt32MultiArray ----------

  datatype Dimension = Dimension(axis: seq<Byte>, size: int, stride: int)
  datatype MultiArray = MultiArray(dims: seq<Dimension>, offset: int, data: seq<int>)

  predicate ValidMultiArray(a: MultiArray) {
    && (forall d | d in a.dims :: InRange(W32, false, d.size) && InRange(W32, false, d.stride))
    && InRange(W32, false, a.offset) && forall n | n in a.data :: InRange(W32, false, n)
  }

  function DimensionTerm(d: Dimension): Term {
    TupleT([BinT(d.axis), IntT(d.size), IntT(d.stride)])
  }

  function MultiArrayTerm(a: MultiArray): Term {
    TupleT([
      TupleT([ListT(seq(|a.dims|, i requires 0 <= i < |a.dims| => DimensionTerm(a.dims[i]))), IntT(a.offset)]),
      ListT(seq(|a.data|, i requires 0 <= i < |a.data| => IntT(a.data[i])))])
  }

  lemma DimensionTyped(narrow: Narrow, d: Dimension)
    requires InRange(W32, false, d.size) && InRange(W32, false, d.stride)
    ensures WellTyped(narrow, DIMENSION, DimensionTerm(d))
  {
    var (fs, t) := ([STRING, UINT32, UINT32], DimensionTerm(d));
    forall i | 0 <= i < |fs| ensures WellTyped(narrow, fs[i], t.elems[i]) {
    }
  }

  lemma LayoutTyped(narrow: Narrow, a: MultiArray)
    requires ValidMultiArray(a)
    ensures WellTyped(narrow, UINT32_MULTI_ARRAY.fields[0], MultiArrayTerm(a).elems[0])
  {
    var (fs, t) := ([SeqS(DIMENSION), UINT32], MultiArrayTerm(a).elems[0]);
    forall i | 0 <= i < |a.dims| ensures WellTyped(narrow, DIMENSION, t.elems[0].items[i]) {
      assert a.dims[i] in a.dims;
      DimensionTyped(narrow, a.dims[i]);
    }
    forall i | 0 <= i < |fs| ensures WellTyped(narrow, fs[i], t.elems[i]) {
    }
  }

  lemma DataTyped(narrow: Narrow, a: MultiArray)
    requires ValidMultiArray(a)
    ensures WellTyped(narrow, UINT32_MULTI_ARRAY.fields[1], MultiArrayTerm(a).elems[1])
  {
    var t := MultiArrayTerm(a).elems[1];
    forall i | 0 <= i < |t.items| ensures WellTyped(narrow, UINT32, t.items[i]) {
      assert a.data[i] in a.data;
    }
  }

  /** Every multi-array whose sizes, strides, offset and data fit 32 bits survives the native message unchanged. */
  lemma MultiArrayRoundTrip(narrow: Narrow, a: MultiArray, prior: Term)
    requires ValidMultiArray(a)
    ensures WellTyped(narrow, UINT32_MULTI_ARRAY, MultiArrayTerm(a))
    ensures Wide(UINT32_MULTI_ARRAY, MultiArrayTerm(a)) && Accepts(UINT32_MULTI_ARRAY, MultiArrayTerm(a))
    ensures ReadBack(narrow, UINT32_MULTI_ARRAY, MultiArrayTerm(a), prior) == MultiArrayTerm(a)
  {
    LayoutTyped(narrow, a);
    DataTyped(narrow, a);
    var (fs, t) := (UINT32_MULTI_ARRAY.fields, MultiArrayTerm(a));
    forall i | 0 <= i < |fs| ensures WellTyped(narrow, fs[i], t.elems[i]) {
    }
    RoundTrip(narrow, UINT32_MULTI_ARRAY, t, prior);
  }

  /**
   A multi-array whose data list is refused at element k has its new layout, the data before k, whatever
   element k left, and zeros after it.
   */
  lemma RefusedData(narrow: Narrow, layout: Term, data: seq<Term>, prior: Term, k: nat)
    requires WellTyped(narrow, UINT32_MULTI_ARRAY.fields[0], layout)
    requires k < |data| && (forall i | 0 <= i < k :: WellTyped(narrow, UINT32, data[i]))
    requires !Accepts(UINT32, data[k])
    ensures var t := TupleT([layout, ListT(data)]);
            && Wide(UINT32_MULTI_ARRAY, t) && !Accepts(UINT32_MULTI_ARRAY, t)
            && var back := ReadBack(narrow, UINT32_MULTI_ARRAY, t, prior);
            && back.TupleT? && |back.elems| == 2 && back.elems[0] == layout
            && back.elems[1].ListT? && |back.elems[1].items| == |data|
            && back.elems[1].items[..k] == data[..k]
            && forall j | k <= j < |data| :: back.elems[1].items[j] == IntT(0)
  {
    var (fields, t) := (UINT32_MULTI_ARRAY.fields, TupleT([layout, ListT(data)]));
    RoundTrip(narrow, fields[0], layout, Field(prior, fields, 0));
    assert Wide(fields[1], t.elems[1]);
    forall i | 0 <= i < k
      ensures Accepts(UINT32, data[i]) && ReadBack(narrow, UINT32, data[i], Zero(UINT32)) == data[i]
    {
      RoundTrip(narrow, UINT32, data[i], Zero(UINT32));
    }
    RefusedSeq(narrow, UINT32, t.elems[1], Field(prior, fields, 1), k);
    assert FieldsBefore(fields, t.elems, 0) && FieldsBefore(fields, t.elems, 1);
    assert !Accepts(fields[1], t.elems[1]);
  }

  // ---------- action_msgs/msg/GoalInfo ----------

  function GoalInfoTerm(uuid: seq<Byte>, sec: int, nanosec: int): Term {
    TupleT([TupleT([BinT(uuid)]), TupleT([IntT(sec), IntT(nanosec)])])
  }

  /**
   A uuid of at most 16 bytes replaces as many bytes of the old one and keeps the rest; a longer one is
   refused with nothing changed.
   */
  lemma GoalInfoUuid(narrow: Narrow, uuid: seq<Byte>, sec: int, nanosec: int, was: seq<Byte>, s: int, n: int)
    requires InRange(W32, true, sec) && InRange(W32, false, nanosec) && |was| == UUID_SIZE
    ensures var (t, prior) := (GoalInfoTerm(uuid, sec, nanosec), GoalInfoTerm(was, s, n));
            && Wide(GOAL_INFO, t)
            && (Accepts(GOAL_INFO, t) <==> |uuid| <= UUID_SIZE)
            && ReadBack(narrow, GOAL_INFO, t, prior) ==
               if |uuid| <= UUID_SIZE then GoalInfoTerm(uuid + was[|uuid|..], sec, nanosec) else prior
  {
    var (fields, t, prior) := (GOAL_INFO.fields, GoalInfoTerm(uuid, sec, nanosec), GoalInfoTerm(was, s, n));
    var back := ReadBack(narrow, UUID, t.elems[0], prior.elems[0]);
    assert FieldsBefore(UUID.fields, t.elems[0].elems, 0);
    assert ReadBack(narrow, UUID.fields[0], BinT(uuid), BinT(was)) ==
           if |uuid| <= UUID_SIZE then BinT(uuid + was[|uuid|..]) else BinT(was);
    assert back.elems[0] == ReadBack(narrow, UUID.fields[0], BinT(uuid), BinT(was));
    assert back == TupleT([if |uuid| <= UUID_SIZE then BinT(uuid + was[|uuid|..]) else BinT(was)]);
    assert WellTyped(narrow, TIME, t.elems[1]);
    RoundTrip(narrow, TIME, t.elems[1], prior.elems[1]);
    assert FieldsBefore(fields, t.elems, 0);
    assert FieldsBefore(fields, t.elems, 1) <==> |uuid| <= UUID_SIZE by {
      assert Accepts(UUID, t.elems[0]) <==> Accepts(UUID.fields[0], BinT(uuid));
    }
  }
}
