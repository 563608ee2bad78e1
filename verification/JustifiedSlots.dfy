/** The justified-slots bitlist, stored relative to the finalized boundary: index 0 is the slot
    right after the finalized one, and slots up to the boundary are justified without storage. */
module JustifiedSlots {
  import opened Types

  function RelativeIndex(slot: Slot, finalized: Slot): Option<nat> {
    if slot > finalized then Some(slot - finalized - 1) else None
  }

  predicate IsJustified(window: seq<bool>, finalized: Slot, slot: Slot) {
    match RelativeIndex(slot, finalized)
    case None => true
    case Some(i) => i < |window| && window[i]
  }

  /** `set` panics past the end of the bitlist. */
  predicate Settable(window: seq<bool>, finalized: Slot, slot: Slot) {
    match RelativeIndex(slot, finalized)
    case None => true
    case Some(i) => i < |window|
  }

  function SetJustified(window: seq<bool>, finalized: Slot, slot: Slot): (w: seq<bool>)
    ensures |w| == |window|
  {
    match RelativeIndex(slot, finalized)
    case None => window
    case Some(i) => if i < |window| then window[i := true] else window
  }

  function ExtendTo(window: seq<bool>, finalized: Slot, slot: Slot): seq<bool> {
    match RelativeIndex(slot, finalized)
    case None => window
    case Some(i) => if i < |window| then window else window + seq(i + 1 - |window|, _ => false)
  }

  function Shift(window: seq<bool>, delta: nat): seq<bool> {
    if delta >= |window| then [] else window[delta..]
  }

  method ShiftWindow(window: seq<bool>, delta: nat) returns (r: seq<bool>)
    ensures delta == 0 ==> r == window
    ensures r == Shift(window, delta)
  {
    if delta == 0 {
      return window;
    }
    if delta >= |window| {
      return [];
    }
    var remaining := |window| - delta;
    r := seq(remaining, _ => false);
    var i := 0;
    while i < remaining
      invariant 0 <= i <= remaining == |r|
      invariant forall k :: 0 <= k < remaining ==> r[k] == (k < i && window[k + delta])
    {
      if window[i + delta] {
        r := r[i := true];
      }
      i := i + 1;
    }
  }

  // The bitlist stands for a set of absolute slots; each operation is that set operation.

  ghost function Slots(window: seq<bool>, finalized: Slot): iset<Slot> {
    iset s: Slot | IsJustified(window, finalized, s)
  }

  lemma ExtendKeepsSlots(window: seq<bool>, finalized: Slot, slot: Slot)
    ensures Slots(ExtendTo(window, finalized, slot), finalized) == Slots(window, finalized)
    ensures slot > finalized ==> Settable(ExtendTo(window, finalized, slot), finalized, slot)
  {
  }

  lemma SetAddsOneSlot(window: seq<bool>, finalized: Slot, slot: Slot)
    requires Settable(window, finalized, slot)
    ensures Slots(SetJustified(window, finalized, slot), finalized) == Slots(window, finalized) + iset{slot}
  {
  }

  lemma ShiftMovesBoundary(window: seq<bool>, finalized: Slot, delta: nat)
    ensures forall s: Slot ::
              s in Slots(Shift(window, delta), finalized + delta)
              <==> s in Slots(window, finalized) || s <= finalized + delta
  {
    var w := Shift(window, delta);
    forall s: Slot
      ensures IsJustified(w, finalized + delta, s) <==> IsJustified(window, finalized, s) || s <= finalized + delta
    {
      if s > finalized + delta && delta < |window| {
        assert s - finalized - 1 - delta == s - (finalized + delta) - 1;
      }
    }
  }
}
