/** The key emitter and the virtual keyboard it drives.

    Every edge becomes one key event on the virtual keyboard followed by one
    synchronisation event. The keyboard's own state is the set of key codes it
    holds down; replaying the events written so far gives that set, which is
    how the model states that the virtual keys never fall out of step with the
    pedals.
 */
module Keyboard {
  import opened Decoder

  /** An event written to the virtual keyboard: a key event (EV_KEY) with its
      key code and value, or the synchronisation marker (EV_SYN, SYN_REPORT). */
  datatype Event = Key(code: nat, value: bv8) | Syn

  /** The events written for one edge: its key event, then one sync. */
  function EdgeWrites(e: Edge): seq<Event>
  {
    [Key(e.key, e.value), Syn]
  }

  /** The events written for a list of edges, in order. */
  function Writes(edges: seq<Edge>): seq<Event>
  {
    if edges == [] then []
    else Writes(edges[..|edges| - 1]) + EdgeWrites(edges[|edges| - 1])
  }

  /** The events written for one edge alone. */
  lemma WritesOne(e: Edge)
    ensures Writes([e]) == [Key(e.key, e.value), Syn]
  {
    assert [e][..0] == [];
  }

  /** What is written for a list of edges is, for each edge in order, its key
      event immediately followed by exactly one sync, and nothing else. */
  lemma {:induction false} WritesShape(edges: seq<Edge>)
    ensures |Writes(edges)| == 2 * |edges|
    ensures forall j :: 0 <= j < |edges| ==>
      Writes(edges)[2 * j] == Key(edges[j].key, edges[j].value) && Writes(edges)[2 * j + 1] == Syn
    decreases |edges|
  {
    if edges != [] {
      var init := edges[..|edges| - 1];
      WritesShape(init);
      forall j | 0 <= j < |edges|
        ensures Writes(edges)[2 * j] == Key(edges[j].key, edges[j].value) && Writes(edges)[2 * j + 1] == Syn
      {
        if j < |init| {
          assert edges[j] == init[j];
        }
      }
    }
  }

  /** Writing two lists of edges one after the other writes their events one
      after the other. */
  lemma {:induction false} WritesAppend(a: seq<Edge>, b: seq<Edge>)
    ensures Writes(a + b) == Writes(a) + Writes(b)
    decreases |b|
  {
    if b == [] {
      assert a + b == a;
    } else {
      var b' := b[..|b| - 1];
      assert (a + b)[..|a + b| - 1] == a + b';
      WritesAppend(a, b');
    }
  }

  /** The keys held down after one event: a key event with value 0 releases
      its key, any other value presses it, and a sync changes nothing. */
  function Apply(down: set<nat>, ev: Event): set<nat>
  {
    match ev
    case Key(code, value) => if value == 0 then down - {code} else down + {code}
    case Syn => down
  }

  /** The keys held down after a list of events, starting from down. */
  function Replay(down: set<nat>, events: seq<Event>): set<nat>
    decreases |events|
  {
    if events == [] then down else Replay(Apply(down, events[0]), events[1..])
  }

  lemma {:induction false} ReplayAppend(down: set<nat>, a: seq<Event>, b: seq<Event>)
    ensures Replay(down, a + b) == Replay(Replay(down, a), b)
    decreases |a|
  {
    if a != [] {
      assert (a + b)[1..] == a[1..] + b;
      ReplayAppend(Apply(down, a[0]), a[1..], b);
    } else {
      assert a + b == b;
    }
  }

  /** The keys that should be held for a state byte: the bound key of every
      pedal held in it. */
  function HeldKeys(state: bv8): set<nat>
  {
    set i | 0 <= i < |Pedals| && Held(state, Pedals[i]) :: KeyMap(Pedals[i])
  }

  /** The keys held for three pedal positions. */
  function KeysFor(left: bool, mid: bool, right: bool): set<nat>
  {
    (if left then {KeyLeftAlt} else {}) + (if mid then {KeyLeftCtrl} else {}) + (if right then {KeyLeftShift} else {})
  }

  /** A key set with one key forced up or down. */
  function SetKey(down: set<nat>, key: nat, held: bool): set<nat>
  {
    if held then down + {key} else down - {key}
  }

  /** Forcing one pedal's key in the keys held for three positions gives the
      keys held for the positions with that pedal's changed. */
  lemma SetKeyFor(l: bool, m: bool, r: bool, held: bool)
    ensures SetKey(KeysFor(l, m, r), KeyLeftAlt, held) == KeysFor(held, m, r)
    ensures SetKey(KeysFor(l, m, r), KeyLeftCtrl, held) == KeysFor(l, held, r)
    ensures SetKey(KeysFor(l, m, r), KeyLeftShift, held) == KeysFor(l, m, held)
  {
  }

  lemma HeldKeysUnfolded(state: bv8)
    ensures HeldKeys(state) == KeysFor(Held(state, Left), Held(state, Mid), Held(state, Right))
  {
    var h := HeldKeys(state);
    assert Held(state, Left) ==> KeyLeftAlt in h by { assert Pedals[0] == Left; }
    assert Held(state, Mid) ==> KeyLeftCtrl in h by { assert Pedals[1] == Mid; }
    assert Held(state, Right) ==> KeyLeftShift in h by { assert Pedals[2] == Right; }
  }

  /** The keys held for a state byte depend on its pedal bits only. */
  lemma HeldKeysMasked(state: bv8)
    ensures HeldKeys(state) == HeldKeys(state & PedalBits)
  {
    HeldKeysUnfolded(state);
    HeldKeysUnfolded(state & PedalBits);
  }

  /** Writing one edge leaves its key pressed or released as the edge says. */
  lemma ReplayEdge(down: set<nat>, e: Edge)
    ensures Replay(down, Writes([e])) == Apply(down, Key(e.key, e.value))
  {
    WritesOne(e);
    var k := Apply(down, Key(e.key, e.value));
    assert [Key(e.key, e.value), Syn][1..] == [Syn];
    assert Replay(k, [Syn]) == Replay(k, []) by { assert [Syn][1..] == []; }
  }

  /** Writing one pedal's edge sets that pedal's key to the pedal's new
      position and leaves every other key alone. */
  lemma ReplayPedalEdge(down: set<nat>, prev: bv8, state: bv8, p: bv8)
    requires IsPedal(p)
    ensures Replay(down, Writes(PedalEdge(prev, state, p)))
         == if Flipped(prev, state, p) then SetKey(down, KeyMap(p), Held(state, p)) else down
  {
    if Flipped(prev, state, p) {
      ReplayEdge(down, Edge(KeyMap(p), if Held(state, p) then 1 else 0));
    }
  }

  /** A pedal's new position is its old one, toggled when its bit flipped. */
  lemma HeldAfterFlip(prev: bv8, state: bv8, p: bv8)
    requires IsPedal(p)
    ensures Held(state, p) == (Held(prev, p) != Flipped(prev, state, p))
    ensures Flipped(prev, state, p) ==> Held(state, p) == !Held(prev, p)
  {
  }

  /** Replaying what one report writes replays the left, mid and right edges in turn. */
  lemma ReplayDecode(down: set<nat>, prev: bv8, state: bv8)
    ensures Replay(down, Writes(Decode(prev, state)))
         == Replay(Replay(Replay(down, Writes(PedalEdge(prev, state, Left))),
                                       Writes(PedalEdge(prev, state, Mid))),
                                       Writes(PedalEdge(prev, state, Right)))
  {
    DecodeIsExpected(prev, state);
    var a, b, c := PedalEdge(prev, state, Left), PedalEdge(prev, state, Mid), PedalEdge(prev, state, Right);
    WritesAppend(a, b);
    WritesAppend(a + b, c);
    ReplayAppend(down, Writes(a) + Writes(b), Writes(c));
    ReplayAppend(down, Writes(a), Writes(b));
  }

  /** Starting from the keys held for the previous state, replaying what one
      report writes leaves exactly the keys held for the new state. */
  lemma KeysTrackPedals(prev: bv8, state: bv8)
    ensures Replay(HeldKeys(prev), Writes(Decode(prev, state))) == HeldKeys(state)
  {
    var k0 := HeldKeys(prev);
    ReplayDecode(k0, prev, state);
    var k1 := Replay(k0, Writes(PedalEdge(prev, state, Left)));
    var k2 := Replay(k1, Writes(PedalEdge(prev, state, Mid)));
    HeldKeysUnfolded(prev);
    HeldKeysUnfolded(state);
    var l, m, r := Held(state, Left), Held(state, Mid), Held(state, Right);
    HeldAfterFlip(prev, state, Left);
    HeldAfterFlip(prev, state, Mid);
    HeldAfterFlip(prev, state, Right);
    ReplayPedalEdge(k0, prev, state, Left);
    SetKeyFor(Held(prev, Left), Held(prev, Mid), Held(prev, Right), l);
    assert k1 == KeysFor(l, Held(prev, Mid), Held(prev, Right));
    ReplayPedalEdge(k1, prev, state, Mid);
    SetKeyFor(l, Held(prev, Mid), Held(prev, Right), m);
    assert k2 == KeysFor(l, m, Held(prev, Right));
    ReplayPedalEdge(k2, prev, state, Right);
    SetKeyFor(l, m, Held(prev, Right), r);
  }
}
