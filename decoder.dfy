/** The pedal-state decoder of the foot-pedal bridge.

    One report from the pedal carries a state byte whose low three bits are the
    three pedals. Decoding compares it with the previous state byte and yields
    one edge (key code, new level) per pedal whose bit flipped, in the fixed
    order left, mid, right. The arithmetic below is the bridge's own: an XOR,
    one mask per pedal and a shift that brings the pedal's bit down to bit 0.
 */
module Decoder {

  /** Report bit of each pedal. */
  const Left: bv8 := 0x01
  const Mid: bv8 := 0x02
  const Right: bv8 := 0x04

  /** The pedals in the order their edges are written. */
  const Pedals: seq<bv8> := [Left, Mid, Right]

  /** The bits of the state byte that belong to some pedal. */
  const PedalBits: bv8 := 0x07

  /** Linux key codes (input-event-codes.h) of the keys bound to the pedals. */
  const KeyLeftCtrl: nat := 29
  const KeyLeftShift: nat := 42
  const KeyLeftAlt: nat := 56

  /** The masks that have a key bound to them. */
  predicate IsPedal(p: bv8)
  {
    p == Left || p == Mid || p == Right
  }

  /** The key binding table: pedal mask to key code. */
  function KeyMap(p: bv8): nat
    requires IsPedal(p)
  {
    if p == Left then KeyLeftAlt else if p == Mid then KeyLeftCtrl else KeyLeftShift
  }

  /** No two pedals are bound to the same key. */
  lemma KeyMapInjective(p: bv8, q: bv8)
    requires IsPedal(p) && IsPedal(q) && KeyMap(p) == KeyMap(q)
    ensures p == q
  {
  }

  /** What one pedal's part of the decoding yields: the changed bit (still in
      its own position, zero when the pedal did not change) and the level
      brought down to bit 0. */
  datatype Op = Op(changed: bv8, level: bv8)

  /** One key transition to write: the bound key code and its new value
      (1 = pressed, 0 = released). */
  datatype Edge = Edge(key: nat, value: bv8)

  /** True when the pedal with mask p is in a different position in the two states. */
  predicate Flipped(prev: bv8, state: bv8, p: bv8)
  {
    prev & p != state & p
  }

  /** True when the pedal with mask p is held down in state. */
  predicate Held(state: bv8, p: bv8)
  {
    state & p != 0
  }

  /** The key value for a pedal's position: 1 when held, 0 when released. */
  function Level(state: bv8, p: bv8): bv8
  {
    if Held(state, p) then 1 else 0
  }

  /** The per-pedal (changed, level) pairs, in the order left, mid, right. */
  function Ops(prev: bv8, state: bv8): (ops: seq<BoundOp>)
    ensures |ops| == |Pedals|
    ensures forall i :: 0 <= i < |ops| ==> ops[i].changed == 0 || ops[i].changed == Pedals[i]
  {
    var diff := state ^ prev;
    var l := diff & Left;
    var dl := l & state;
    var m := diff & Mid;
    var dm := (m & state) >> 1;
    var r := diff & Right;
    var dr := (r & state) >> 2;
    [Op(l, dl), Op(m, dm), Op(r, dr)]
  }

  /** An op whose changed part is zero or a bound mask, so that it can be looked up. */
  predicate Bound(op: Op)
  {
    op.changed == 0 || IsPedal(op.changed)
  }

  /** The ops the decoder can produce. */
  type BoundOp = op: Op | Bound(op) witness Op(0, 0)

  /** The edge an op yields: none when nothing changed, otherwise the key bound
      to the changed bit, with the level as its value. */
  function EdgeOf(op: BoundOp): seq<Edge>
  {
    if op.changed != 0 then [Edge(KeyMap(op.changed), op.level)] else []
  }

  /** The edges of a list of ops, in list order. */
  function Edges(ops: seq<BoundOp>): seq<Edge>
  {
    if ops == [] then []
    else Edges(ops[..|ops| - 1]) + EdgeOf(ops[|ops| - 1])
  }

  /** The edges one report yields, given the previous state byte. */
  function Decode(prev: bv8, state: bv8): seq<Edge>
  {
    Edges(Ops(prev, state))
  }

  /** The edge one pedal contributes, defined by direct masking rather than by
      shifting: an edge exactly when its bit differs, valued 1 exactly when its
      bit is set in the new state. */
  function PedalEdge(prev: bv8, state: bv8, p: bv8): seq<Edge>
    requires IsPedal(p)
  {
    if Flipped(prev, state, p) then [Edge(KeyMap(p), Level(state, p))] else []
  }

  /** Reference decoding: the pedal edges of Pedals[i..], in order. */
  function ExpectedFrom(prev: bv8, state: bv8, i: nat): seq<Edge>
    requires i <= |Pedals|
    decreases |Pedals| - i
  {
    if i == |Pedals| then []
    else PedalEdge(prev, state, Pedals[i]) + ExpectedFrom(prev, state, i + 1)
  }

  /** Reference decoding of one report. */
  function Expected(prev: bv8, state: bv8): seq<Edge>
  {
    ExpectedFrom(prev, state, 0)
  }

  /** The edges of a three-op list are those of its ops in turn. */
  lemma {:induction false} EdgesOfThree(a: BoundOp, b: BoundOp, c: BoundOp)
    ensures Edges([a, b, c]) == EdgeOf(a) + EdgeOf(b) + EdgeOf(c)
  {
    assert [a, b, c][..2] == [a, b];
    assert [a, b][..1] == [a];
    assert [a][..0] == [];
    assert Edges([a]) == EdgeOf(a);
    assert Edges([a, b]) == EdgeOf(a) + EdgeOf(b);
  }

  /** Each shift-derived op yields the edge that direct masking prescribes. */
  lemma OpIsPedalEdge(prev: bv8, state: bv8, i: nat)
    requires i < |Pedals|
    ensures EdgeOf(Ops(prev, state)[i]) == PedalEdge(prev, state, Pedals[i])
  {
  }

  /** The reference decoding of one report, pedal by pedal. */
  lemma ExpectedUnfolded(prev: bv8, state: bv8)
    ensures Expected(prev, state)
         == PedalEdge(prev, state, Left) + PedalEdge(prev, state, Mid) + PedalEdge(prev, state, Right)
  {
    assert ExpectedFrom(prev, state, 3) == [];
    assert ExpectedFrom(prev, state, 2) == PedalEdge(prev, state, Right);
    assert ExpectedFrom(prev, state, 1) == PedalEdge(prev, state, Mid) + PedalEdge(prev, state, Right);
  }

  /** The shift arithmetic of the bridge decodes exactly as the direct-masking
      reference: one edge per flipped pedal, in the order left, mid, right. */
  lemma {:induction false} DecodeIsExpected(prev: bv8, state: bv8)
    ensures Decode(prev, state) == Expected(prev, state)
    ensures Decode(prev, state)
         == PedalEdge(prev, state, Left) + PedalEdge(prev, state, Mid) + PedalEdge(prev, state, Right)
  {
    var ops := Ops(prev, state);
    OpIsPedalEdge(prev, state, 0);
    OpIsPedalEdge(prev, state, 1);
    OpIsPedalEdge(prev, state, 2);
    assert ops == [ops[0], ops[1], ops[2]];
    EdgesOfThree(ops[0], ops[1], ops[2]);
    ExpectedUnfolded(prev, state);
  }

  /** An edge is in the decoding exactly when it is the edge of a pedal whose
      bit flipped, carrying that pedal's bound key and new level. */
  lemma DecodeMembers(prev: bv8, state: bv8, e: Edge)
    ensures e in Decode(prev, state) <==>
      exists i :: 0 <= i < |Pedals| && Flipped(prev, state, Pedals[i]) && e == Edge(KeyMap(Pedals[i]), Level(state, Pedals[i]))
  {
    DecodeIsExpected(prev, state);
    if e in Decode(prev, state) {
      if e in PedalEdge(prev, state, Left) {
        assert Pedals[0] == Left;
      } else if e in PedalEdge(prev, state, Mid) {
        assert Pedals[1] == Mid;
      } else {
        assert Pedals[2] == Right;
      }
    }
  }

  /** A pedal has an edge in the decoding exactly when its bit flipped, and the
      edge's value is 1 exactly when the pedal is held in the new state. */
  lemma DecodeEdgeIffFlipped(prev: bv8, state: bv8, i: nat)
    requires i < |Pedals|
    ensures var d := Decode(prev, state);
      (exists j :: 0 <= j < |d| && d[j].key == KeyMap(Pedals[i])) <==> Flipped(prev, state, Pedals[i])
    ensures var d := Decode(prev, state);
      forall j :: 0 <= j < |d| && d[j].key == KeyMap(Pedals[i]) ==> d[j].value == Level(state, Pedals[i])
  {
    var d, p := Decode(prev, state), Pedals[i];
    forall j | 0 <= j < |d| && d[j].key == KeyMap(p)
      ensures Flipped(prev, state, p) && d[j].value == Level(state, p)
    {
      DecodeMembers(prev, state, d[j]);
    }
    if Flipped(prev, state, p) {
      var e := Edge(KeyMap(p), Level(state, p));
      DecodeMembers(prev, state, e);
      assert e in d;
    }
  }

  /** Every value written is 0 or 1, and every key written is a bound one. */
  lemma DecodeValuesAreLevels(prev: bv8, state: bv8)
    ensures forall e :: e in Decode(prev, state) ==> e.value == 0 || e.value == 1
    ensures forall e :: e in Decode(prev, state) ==> e.key in {KeyLeftAlt, KeyLeftCtrl, KeyLeftShift}
  {
    DecodeIsExpected(prev, state);
  }

  /** Edges come in ascending pedal-bit order and at most one per pedal. */
  lemma DecodeOrdered(prev: bv8, state: bv8)
    ensures var d := Decode(prev, state);
      forall j, k, a, b ::
        0 <= j < k < |d| && 0 <= a < |Pedals| && 0 <= b < |Pedals| &&
        d[j].key == KeyMap(Pedals[a]) && d[k].key == KeyMap(Pedals[b])
        ==> a < b
  {
    DecodeIsExpected(prev, state);
  }

  /** A report equal to the previous one yields no edge. */
  lemma DecodeSameStateIsEmpty(state: bv8)
    ensures Decode(state, state) == []
  {
    DecodeIsExpected(state, state);
  }

  /** Bits outside the pedal bits never yield an edge: the decoding depends on
      the pedal bits of both bytes only. */
  lemma DecodeIgnoresOtherBits(prev: bv8, state: bv8)
    ensures Decode(prev, state) == Decode(prev & PedalBits, state & PedalBits)
  {
    DecodeIsExpected(prev, state);
    DecodeIsExpected(prev & PedalBits, state & PedalBits);
  }

  /** A report that flips one pedal yields exactly that pedal's edge. */
  lemma DecodeSingleFlip(prev: bv8, state: bv8, i: nat)
    requires i < |Pedals| && (prev ^ state) & PedalBits == Pedals[i]
    ensures Decode(prev, state) == [Edge(KeyMap(Pedals[i]), Level(state, Pedals[i]))]
  {
    DecodeIsExpected(prev, state);
  }

  /** Against the all-released state every held pedal is reported as a press,
      and nothing else is reported. */
  lemma DecodeFromReleased(state: bv8)
    ensures forall e :: e in Decode(0, state) ==> e.value == 1
    ensures forall i :: 0 <= i < |Pedals| ==>
      (Edge(KeyMap(Pedals[i]), 1) in Decode(0, state) <==> Held(state, Pedals[i]))
  {
    DecodeIsExpected(0, state);
  }

  /** Some reports worked out: a press, a release, all three at once, and a
      mixed report whose edges still come out left, mid, right. */
  lemma DecodeExamples()
    ensures Decode(0x00, 0x01) == [Edge(KeyLeftAlt, 1)]
    ensures Decode(0x01, 0x00) == [Edge(KeyLeftAlt, 0)]
    ensures Decode(0x00, 0x07) == [Edge(KeyLeftAlt, 1), Edge(KeyLeftCtrl, 1), Edge(KeyLeftShift, 1)]
    ensures Decode(0x02, 0x05) == [Edge(KeyLeftAlt, 1), Edge(KeyLeftCtrl, 0), Edge(KeyLeftShift, 1)]
  {
    DecodeIsExpected(0x00, 0x01);
    DecodeIsExpected(0x01, 0x00);
    DecodeIsExpected(0x00, 0x07);
    DecodeIsExpected(0x02, 0x05);
  }
}
