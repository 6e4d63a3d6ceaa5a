/**
 The first-arrival RF sequence gate (bridge/src/dedup.rs), and the gate over
 unbounded packet numbers that it stands in for.
 */
module SequenceGates {
  import opened Bytes

  datatype Decision = Accepted | Duplicate | Stale

  datatype Verdict = Verdict(decision: Decision, missing: u8)

  datatype SequenceState = SequenceState(sequence: u8, receivedAt: u64)

  datatype Gate = Gate(resetAfter: u64, states: map<u64, SequenceState>)

  // `u8::wrapping_sub`
  function WrappingSub(a: u8, b: u8): u8 { (a - b) % 0x100 }

  // `u64::saturating_sub`
  function SaturatingSub(a: u64, b: u64): u64 { if a >= b then a - b else 0 }

  function Judge(g: Gate, tracker: u64, sequence: u8, now: u64): Verdict {
    if tracker !in g.states || SaturatingSub(now, g.states[tracker].receivedAt) >= g.resetAfter then
      Verdict(Accepted, 0)
    else
      var delta := WrappingSub(sequence, g.states[tracker].sequence);
      if delta == 0 then Verdict(Duplicate, 0)
      else if delta <= 127 then Verdict(Accepted, delta - 1)
      else Verdict(Stale, 0)
  }

  function Evaluate(g: Gate, tracker: u64, sequence: u8, now: u64): Gate {
    var kept := if Judge(g, tracker, sequence, now).decision == Accepted then sequence
                else g.states[tracker].sequence;
    g.(states := g.states[tracker := SequenceState(kept, now)])
  }

  class SequenceGate {
    const resetAfterMs: u64
    var states: map<u64, SequenceState>

    function View(): Gate
      reads this
    {
      Gate(resetAfterMs, states)
    }

    constructor (resetAfter: u64)
      ensures View() == Gate(resetAfter, map[])
    {
      resetAfterMs := resetAfter;
      states := map[];
    }

    method EvaluatePacket(tracker: u64, sequence: u8, now: u64) returns (r: Verdict)
      modifies this
      ensures r == Judge(old(View()), tracker, sequence, now)
      ensures View() == Evaluate(old(View()), tracker, sequence, now)
    {
      if tracker !in states {
        states := states[tracker := SequenceState(sequence, now)];
        return Verdict(Accepted, 0);
      }
      var previous := states[tracker];
      if SaturatingSub(now, previous.receivedAt) >= resetAfterMs {
        states := states[tracker := SequenceState(sequence, now)];
        return Verdict(Accepted, 0);
      }
      var delta := WrappingSub(sequence, previous.sequence);
      if delta == 0 {
        states := states[tracker := SequenceState(previous.sequence, now)];
        r := Verdict(Duplicate, 0);
      } else if delta <= 127 {
        states := states[tracker := SequenceState(sequence, now)];
        r := Verdict(Accepted, delta - 1);
      } else {
        states := states[tracker := SequenceState(previous.sequence, now)];
        r := Verdict(Stale, 0);
      }
    }

    method Clear(tracker: u64)
      modifies this
      ensures View() == old(View()).(states := old(states) - {tracker})
    {
      states := states - {tracker};
    }
  }

  // ---- The gate over unbounded packet numbers ----

  // A packet as its tracker numbered it; the wire carries the number modulo 256.
  datatype Arrival = Arrival(tracker: u64, number: nat, now: u64)

  type History = seq<Arrival>

  function After(reset: u64, h: History): Gate {
    if h == [] then Gate(reset, map[]) else
    var a := h[|h| - 1];
    Evaluate(After(reset, h[..|h| - 1]), a.tracker, a.number % 0x100, a.now)
  }

  // What the gate says of the packet that follows `h`.
  function VerdictOn(reset: u64, h: History, a: Arrival): Verdict {
    Judge(After(reset, h), a.tracker, a.number % 0x100, a.now)
  }

  // Where a gate on whole numbers stands with a tracker: its reference, and when it last heard of it.
  datatype Mark = Mark(number: nat, heardAt: u64)

  // The tracker was silent for `reset` milliseconds or more. A clock that stepped back counts as no silence.
  predicate Silent(reset: u64, m: Mark, now: u64) {
    reset == 0 || now >= m.heardAt + reset
  }

  // A packet after a silence starts anew; others only raise the reference.
  function Marked(reset: u64, h: History, tracker: u64): Option<Mark> {
    if h == [] then None else
    var a, m := h[|h| - 1], Marked(reset, h[..|h| - 1], tracker);
    if a.tracker != tracker then m
    else if m.None? || Silent(reset, m.value, a.now) || a.number > m.value.number then Some(Mark(a.number, a.now))
    else Some(Mark(m.value.number, a.now))
  }

  // `a` is its tracker's first packet, or its first after a silence.
  predicate Starts(reset: u64, h: History, a: Arrival) {
    var m := Marked(reset, h, a.tracker);
    m.None? || Silent(reset, m.value, a.now)
  }

  // What a gate that saw whole numbers would say.
  function Ideal(reset: u64, h: History, a: Arrival): (Decision, nat) {
    if Starts(reset, h, a) then (Accepted, 0) else
    var top := Marked(reset, h, a.tracker).value.number;
    if a.number > top then (Accepted, a.number - top - 1)
    else if a.number == top then (Duplicate, 0)
    else (Stale, 0)
  }

  // Without a silence, `a` is near enough to its tracker's reference.
  ghost predicate InWindow(reset: u64, h: History, a: Arrival) {
    Starts(reset, h, a) ||
    var top := Marked(reset, h, a.tracker).value.number;
    top - 128 <= a.number <= top + 127
  }

  ghost predicate AllInWindow(reset: u64, h: History) {
    forall i :: 0 <= i < |h| ==> InWindow(reset, h[..i], h[i])
  }

  lemma WrappingDifference(a: nat, b: nat)
    ensures WrappingSub(a % 0x100, b % 0x100) == (a - b) % 0x100
  {
    var x, y := a / 0x100, b / 0x100;
    assert a - b == 0x100 * (x - y) + (a % 0x100 - b % 0x100);
    ModuloShift(a % 0x100 - b % 0x100, x - y);
  }

  lemma ModuloShift(d: int, k: int)
    ensures (0x100 * k + d) % 0x100 == d % 0x100
  {
  }

  // A timely packet near the reference is judged by its whole number.
  lemma JudgesNear(g: Gate, tracker: u64, top: nat, number: nat, now: u64)
    requires tracker in g.states && g.states[tracker].sequence == top % 0x100
    requires SaturatingSub(now, g.states[tracker].receivedAt) < g.resetAfter
    requires top - 128 <= number <= top + 127
    ensures Judge(g, tracker, number % 0x100, now) ==
      if number > top then Verdict(Accepted, number - top - 1)
      else if number == top then Verdict(Duplicate, 0)
      else Verdict(Stale, 0)
  {
    WrappingDifference(number, top);
  }

  /**
   From any gate state: after `reset_after_ms` of silence, or for a tracker not heard before,
   any sequence value is accepted with nothing missing, and is the new reference.
   */
  lemma SilenceStartsAnew(g: Gate, tracker: u64, sequence: u8, now: u64)
    requires tracker in g.states ==> g.resetAfter == 0 || now >= g.states[tracker].receivedAt + g.resetAfter
    ensures Judge(g, tracker, sequence, now) == Verdict(Accepted, 0)
    ensures tracker in Evaluate(g, tracker, sequence, now).states
    ensures Evaluate(g, tracker, sequence, now).states[tracker] == SequenceState(sequence, now)
    ensures forall t :: t in g.states && t != tracker ==>
      t in Evaluate(g, tracker, sequence, now).states && Evaluate(g, tracker, sequence, now).states[t] == g.states[t]
  {
  }

  lemma AllInWindowPrefix(reset: u64, h: History, i: nat)
    requires AllInWindow(reset, h) && i <= |h|
    ensures AllInWindow(reset, h[..i])
  {
    forall j | 0 <= j < i ensures InWindow(reset, h[..i][..j], h[..i][j]) {
      assert h[..i][..j] == h[..j];
    }
  }

  /** The gate's reference is that of the gate on whole numbers, modulo 256. */
  lemma {:induction false} Reference(reset: u64, h: History, tracker: u64)
    requires AllInWindow(reset, h)
    ensures tracker in After(reset, h).states <==> Marked(reset, h, tracker).Some?
    ensures Marked(reset, h, tracker).Some? ==>
      var m := Marked(reset, h, tracker).value;
      After(reset, h).states[tracker] == SequenceState(m.number % 0x100, m.heardAt)
    ensures After(reset, h).resetAfter == reset
  {
    if h != [] {
      var n := |h| - 1;
      AllInWindowPrefix(reset, h, n);
      Reference(reset, h[..n], tracker);
      var a, g := h[n], After(reset, h[..n]);
      assert InWindow(reset, h[..n], a);
      if a.tracker == tracker {
        if Starts(reset, h[..n], a) {
          SilenceStartsAnew(g, tracker, a.number % 0x100, a.now);
        } else {
          JudgesNear(g, tracker, Marked(reset, h[..n], tracker).value.number, a.number, a.now);
        }
      }
    }
  }

  /**
   Over any interleaving of sources and trackers, with any silences, the 8-bit gate says
   what the gate on whole numbers says: one that starts anew after a silence, and else
   takes what is newer than its reference.
   */
  lemma RefinesIdeal(reset: u64, h: History, a: Arrival)
    requires AllInWindow(reset, h) && InWindow(reset, h, a)
    ensures
      var v := VerdictOn(reset, h, a);
      Ideal(reset, h, a) == (v.decision, v.missing)
  {
    Reference(reset, h, a.tracker);
    var g := After(reset, h);
    if Starts(reset, h, a) {
      SilenceStartsAnew(g, a.tracker, a.number % 0x100, a.now);
    } else {
      JudgesNear(g, a.tracker, Marked(reset, h, a.tracker).value.number, a.number, a.now);
    }
  }

  // No packet of the tracker after the `i`-th, up to the `j`-th, starts anew.
  ghost predicate SameStretch(reset: u64, h: History, i: nat, j: nat) {
    i <= j < |h| && forall k :: i < k <= j && h[k].tracker == h[i].tracker ==> !Starts(reset, h[..k], h[k])
  }

  /** Of two packets of one tracker with no silence from one to the other, an accepted later one is the newer. */
  lemma AcceptedIncrease(reset: u64, h: History, i: nat, j: nat)
    requires AllInWindow(reset, h) && i < j < |h| && h[i].tracker == h[j].tracker && SameStretch(reset, h, i, j)
    requires VerdictOn(reset, h[..j], h[j]).decision == Accepted
    ensures h[i].number < h[j].number
  {
    AllInWindowPrefix(reset, h, j);
    assert InWindow(reset, h[..j], h[j]);
    RefinesIdeal(reset, h[..j], h[j]);
    MarkBounds(reset, h, i, j);
  }

  lemma {:induction false} MarkBounds(reset: u64, h: History, i: nat, j: nat)
    requires i < j <= |h|
    requires forall k :: i < k < j && h[k].tracker == h[i].tracker ==> !Starts(reset, h[..k], h[k])
    ensures
      var m := Marked(reset, h[..j], h[i].tracker);
      m.Some? && h[i].number <= m.value.number
    decreases j
  {
    var last := h[j - 1];
    assert h[..j][..j - 1] == h[..j - 1];
    if i < j - 1 {
      MarkBounds(reset, h, i, j - 1);
    }
  }

  // In the tracker's current stretch, from its last start on: packets accepted, the gaps
  // reported with them, and its first number.
  function Accepts(reset: u64, h: History, tracker: u64): nat {
    if h == [] then 0 else
    var a, before := h[|h| - 1], h[..|h| - 1];
    if a.tracker != tracker then Accepts(reset, before, tracker) else
    (if Starts(reset, before, a) then 0 else Accepts(reset, before, tracker))
    + if VerdictOn(reset, before, a).decision == Accepted then 1 else 0
  }

  function Missing(reset: u64, h: History, tracker: u64): nat {
    if h == [] then 0 else
    var a, before := h[|h| - 1], h[..|h| - 1];
    if a.tracker != tracker then Missing(reset, before, tracker) else
    (if Starts(reset, before, a) then 0 else Missing(reset, before, tracker))
    + VerdictOn(reset, before, a).missing
  }

  function First(reset: u64, h: History, tracker: u64): Option<nat> {
    if h == [] then None else
    var a, before := h[|h| - 1], h[..|h| - 1];
    if a.tracker == tracker && Starts(reset, before, a) then Some(a.number) else First(reset, before, tracker)
  }

  /**
   In every stretch between silences each number from the first to the reference is
   accounted for: accepted, or reported missing.
   */
  lemma {:induction false} NumbersAccountedFor(reset: u64, h: History, tracker: u64)
    requires AllInWindow(reset, h)
    ensures First(reset, h, tracker).Some? <==> Marked(reset, h, tracker).Some?
    ensures Marked(reset, h, tracker).Some? ==>
      ((Accepts(reset, h, tracker) - 1) + Missing(reset, h, tracker)
       == Marked(reset, h, tracker).value.number - First(reset, h, tracker).value)
  {
    if h != [] {
      var n := |h| - 1;
      AllInWindowPrefix(reset, h, n);
      NumbersAccountedFor(reset, h[..n], tracker);
      assert InWindow(reset, h[..n], h[n]);
      RefinesIdeal(reset, h[..n], h[n]);
      hide VerdictOn;
    }
  }

  /** For one timely packet, exactly when the 8-bit verdict is the unbounded one. */
  lemma AgreesIff(g: Gate, tracker: u64, top: nat, number: nat, now: u64)
    requires tracker in g.states && g.states[tracker].sequence == top % 0x100
    requires SaturatingSub(now, g.states[tracker].receivedAt) < g.resetAfter
    ensures
      var v := Judge(g, tracker, number % 0x100, now);
      (v.decision, v.missing as int) ==
        (if number > top then (Accepted, number - top - 1) else if number == top then (Duplicate, 0) else (Stale, 0))
      <==> (top <= number <= top + 127 || (number < top && 1 <= (top - number) % 0x100 <= 128))
  {
    WrappingDifference(number, top);
    hide WrappingSub;
    Opposite(number - top);
  }

  lemma Opposite(d: int)
    ensures (-d) % 0x100 == if d % 0x100 == 0 then 0 else 0x100 - d % 0x100
    ensures 0 <= d <= 127 ==> d % 0x100 == d
  {
    var q, r := d / 0x100, d % 0x100;
    assert -d == 0x100 * -q + -r;
    ModuloShift(-r, -q);
  }

  // ---- Recovery ----

  // A packet at the gate; `own` marks those of the restarted tracker itself.
  datatype Packet = Packet(tracker: u64, sequence: u8, now: u64, own: bool)

  function Run(g: Gate, packets: seq<Packet>): Gate {
    if packets == [] then g else
    var p := packets[|packets| - 1];
    Evaluate(Run(g, packets[..|packets| - 1]), p.tracker, p.sequence, p.now)
  }

  function Owned(packets: seq<Packet>): nat {
    if packets == [] then 0 else
    Owned(packets[..|packets| - 1]) + if packets[|packets| - 1].own then 1 else 0
  }

  // The tracker numbers its own packets start, start + 1, ... modulo 256.
  ghost predicate Consecutive(packets: seq<Packet>, tracker: u64, start: u8) {
    forall i :: 0 <= i < |packets| && packets[i].own ==>
      packets[i].tracker == tracker && packets[i].sequence == (start + Owned(packets[..i])) % 0x100
  }

  ghost predicate NoneAccepted(g: Gate, packets: seq<Packet>, tracker: u64) {
    forall i :: 0 <= i < |packets| && packets[i].tracker == tracker ==>
      Judge(Run(g, packets[..i]), tracker, packets[i].sequence, packets[i].now).decision != Accepted
  }

  lemma NextGap(start: u8, k: nat, sequence: u8, reference: u8)
    requires k <= 129 && sequence == (start + k) % 0x100
    ensures WrappingSub(sequence, reference) == (WrappingSub(start, reference) + k) % 0x100
  {
    var turns := (start + k) / 0x100;
    assert sequence == start + k - 0x100 * turns && 0 <= turns <= 1;
    var carry := if start >= reference then 0 else 1;
    assert WrappingSub(start, reference) == start - reference + 0x100 * carry;
  }

  // Until one is accepted, the reference `r` stays, and the restarted numbers approach it from above.
  lemma {:induction false} StillWaiting(g: Gate, packets: seq<Packet>, tracker: u64, start: u8)
    requires Consecutive(packets, tracker, start) && NoneAccepted(g, packets, tracker)
    ensures (tracker in Run(g, packets).states) == (tracker in g.states)
    ensures tracker in g.states ==> Run(g, packets).states[tracker].sequence == g.states[tracker].sequence
    ensures Owned(packets) > 0 ==> tracker in g.states
    ensures tracker in g.states ==>
      var gap := WrappingSub(start, g.states[tracker].sequence);
      (gap == 0 && Owned(packets) <= 1) || (gap >= 128 && Owned(packets) <= 257 - gap) || Owned(packets) == 0
  {
    hide WrappingSub;
    if packets != [] {
      var n := |packets| - 1;
      var p, before := packets[n], packets[..n];
      forall i | 0 <= i < n ensures packets[..n][..i] == packets[..i] {}
      StillWaiting(g, before, tracker, start);
      if p.tracker == tracker {
        var g' := Run(g, before);
        assert Judge(g', tracker, p.sequence, p.now).decision != Accepted;
        if p.own {
          NextGap(start, Owned(before), p.sequence, g'.states[tracker].sequence);
        }
      }
    }
  }

  /**
   From any gate state and whatever the timing, a restarted tracker is accepted no
   later than its 130th packet, unless another source's packet was accepted for it first.
   */
  lemma RecoversWithin130(g: Gate, packets: seq<Packet>, tracker: u64, start: u8)
    requires Consecutive(packets, tracker, start) && Owned(packets) >= 130
    ensures exists i :: (0 <= i < |packets| && packets[i].tracker == tracker
      && Judge(Run(g, packets[..i]), tracker, packets[i].sequence, packets[i].now).decision == Accepted)
  {
    if NoneAccepted(g, packets, tracker) {
      StillWaiting(g, packets, tracker, start);
    }
  }

  // A gate whose reference is half a turn behind the restarted tracker.
  function HalfTurn(tracker: u64): Gate {
    Gate(250, map[tracker := SequenceState(0, 0)])
  }

  function FromHalfTurn(tracker: u64, n: nat): (packets: seq<Packet>)
    ensures |packets| == n
  {
    if n == 0 then [] else FromHalfTurn(tracker, n - 1) + [Packet(tracker, (128 + n - 1) % 0x100, 0, true)]
  }

  lemma {:induction false} FromHalfTurnPrefix(tracker: u64, n: nat, i: nat)
    requires i <= n
    ensures FromHalfTurn(tracker, n)[..i] == FromHalfTurn(tracker, i)
    ensures i < n ==> FromHalfTurn(tracker, n)[i] == Packet(tracker, (128 + i) % 0x100, 0, true)
    ensures Owned(FromHalfTurn(tracker, n)) == n
  {
    if n > 0 {
      FromHalfTurnPrefix(tracker, n - 1, if i < n then i else n - 1);
      assert FromHalfTurn(tracker, n)[..n - 1] == FromHalfTurn(tracker, n - 1);
      if i < n {
        assert FromHalfTurn(tracker, n)[..i] == FromHalfTurn(tracker, n - 1)[..i];
      }
    }
  }

  lemma {:induction false} StaysAtHalfTurn(tracker: u64, n: nat)
    requires n <= 129
    ensures Run(HalfTurn(tracker), FromHalfTurn(tracker, n)) == HalfTurn(tracker)
    ensures n < 129 ==>
      Judge(HalfTurn(tracker), tracker, (128 + n) % 0x100, 0) == Verdict(if n < 128 then Stale else Duplicate, 0)
  {
    if n > 0 {
      StaysAtHalfTurn(tracker, n - 1);
      FromHalfTurnPrefix(tracker, n, n - 1);
      assert HalfTurn(tracker).states[tracker := SequenceState(0, 0)] == HalfTurn(tracker).states;
    }
  }

  /** The bound is met: here 129 packets in a row are refused. */
  lemma Refuses129(tracker: u64)
    ensures Owned(FromHalfTurn(tracker, 129)) == 129
    ensures Consecutive(FromHalfTurn(tracker, 129), tracker, 128)
    ensures NoneAccepted(HalfTurn(tracker), FromHalfTurn(tracker, 129), tracker)
  {
    var packets := FromHalfTurn(tracker, 129);
    forall i | 0 <= i < 129
      ensures packets[i] == Packet(tracker, (128 + i) % 0x100, 0, true) && Owned(packets[..i]) == i
      ensures Judge(Run(HalfTurn(tracker), packets[..i]), tracker, packets[i].sequence, 0).decision != Accepted
    {
      FromHalfTurnPrefix(tracker, 129, i);
      FromHalfTurnPrefix(tracker, i, i);
      StaysAtHalfTurn(tracker, i);
    }
    FromHalfTurnPrefix(tracker, 129, 0);
  }
}
