/**
 The bridge's gate on report batches (`GatewayDatagramGate`, bridge/src/gateway.rs):
 what it accepts over any history, in terms of the batches alone.
 */
module DatagramGates {
  import opened Bytes
  import G = GatewayDatagram

  datatype GatewayState = GatewayState(bootId: u32, sequence: u32, retired: set<u32>)

  type States = map<u64, GatewayState>

  // `u32::wrapping_sub`
  function WrappingSub(a: u32, b: u32): u32 { (a - b) % 0x1_0000_0000 }

  // Whether a report batch passes.
  predicate Passes(s: States, gatewayId: u64, bootId: u32, sequence: u32) {
    gatewayId !in s
    || (s[gatewayId].bootId != bootId && bootId !in s[gatewayId].retired)
    || (s[gatewayId].bootId == bootId && 0 < WrappingSub(sequence, s[gatewayId].sequence) < 0x8000_0000)
  }

  function Update(s: States, gatewayId: u64, bootId: u32, sequence: u32): States {
    if !Passes(s, gatewayId, bootId, sequence) then s else
    var retired :=
      if gatewayId !in s then {}
      else if s[gatewayId].bootId != bootId then s[gatewayId].retired + {s[gatewayId].bootId}
      else s[gatewayId].retired;
    s[gatewayId := GatewayState(bootId, sequence, retired)]
  }

  class GatewayDatagramGate {
    var states: States

    constructor ()
      ensures states == map[]
    {
      states := map[];
    }

    method Accept(m: G.Message) returns (ok: bool)
      modifies this
      ensures m.kind != G.ReportBatch ==> ok && states == old(states)
      ensures m.kind == G.ReportBatch ==>
        && ok == Passes(old(states), m.gatewayId, m.bootId, m.sequence)
        && states == Update(old(states), m.gatewayId, m.bootId, m.sequence)
    {
      if m.kind != G.ReportBatch {
        return true;
      }
      if m.gatewayId !in states {
        states := states[m.gatewayId := GatewayState(m.bootId, m.sequence, {})];
        return true;
      }
      var previous := states[m.gatewayId];
      if previous.bootId != m.bootId {
        if m.bootId in previous.retired {
          return false;
        }
        states := states[m.gatewayId :=
          GatewayState(m.bootId, m.sequence, previous.retired + {previous.bootId})];
        return true;
      }
      var delta := WrappingSub(m.sequence, previous.sequence);
      if delta == 0 || delta >= 0x8000_0000 {
        return false;
      }
      states := states[m.gatewayId := previous.(sequence := m.sequence)];
      ok := true;
    }
  }

  // ---- Histories of one run ----

  // A batch as its gateway numbered it; the wire carries the number modulo 2^32.
  datatype Batch = Batch(gateway: u64, boot: u32, number: nat)

  type History = seq<Batch>

  function After(h: History): States {
    if h == [] then map[] else
    var b := h[|h| - 1];
    Update(After(h[..|h| - 1]), b.gateway, b.boot, b.number % 0x1_0000_0000)
  }

  predicate AcceptedAfter(h: History, b: Batch) {
    Passes(After(h), b.gateway, b.boot, b.number % 0x1_0000_0000)
  }

  // The boots of `gateway` heard in `h`, and the one first heard last.
  function Boots(h: History, gateway: u64): set<u32> {
    if h == [] then {} else
    Boots(h[..|h| - 1], gateway) + if h[|h| - 1].gateway == gateway then {h[|h| - 1].boot} else {}
  }

  function Newest(h: History, gateway: u64): Option<u32> {
    if h == [] then None else
    var b, before := h[|h| - 1], h[..|h| - 1];
    if b.gateway == gateway && b.boot !in Boots(before, gateway) then Some(b.boot) else Newest(before, gateway)
  }

  // The highest number heard from one boot of a gateway.
  function Top(h: History, gateway: u64, boot: u32): Option<nat> {
    if h == [] then None else
    var b, t := h[|h| - 1], Top(h[..|h| - 1], gateway, boot);
    if b.gateway != gateway || b.boot != boot || (t.Some? && b.number <= t.value) then t else Some(b.number)
  }

  /** Whatever arrives, the gate's current boot is the newest one and all others heard are retired. */
  lemma {:induction false} TracksBoots(h: History, gateway: u64)
    ensures gateway in After(h) <==> Newest(h, gateway).Some?
    ensures gateway !in After(h) ==> Boots(h, gateway) == {}
    ensures gateway in After(h) ==>
      var s := After(h)[gateway];
      && Newest(h, gateway) == Some(s.bootId)
      && s.retired == Boots(h, gateway) - {s.bootId}
      && s.bootId in Boots(h, gateway)
  {
    if h != [] {
      TracksBoots(h[..|h| - 1], gateway);
    }
  }

  /** So the boots of accepted batches stand in contiguous blocks: a boot left behind never returns. */
  lemma BlocksAreContiguous(h: History, i: nat, j: nat, k: nat)
    requires i < j < k < |h| && h[i].gateway == h[j].gateway == h[k].gateway
    requires AcceptedAfter(h[..i], h[i]) && AcceptedAfter(h[..j], h[j]) && AcceptedAfter(h[..k], h[k])
    requires h[i].boot == h[k].boot
    ensures h[j].boot == h[i].boot
  {
    var g := h[i].gateway;
    if h[j].boot != h[i].boot {
      assert h[..j + 1][..j] == h[..j];
      TracksBoots(h[..j], g);
      TracksBoots(h[..j + 1], g);
      HeardStays(h[..j], i);
      StaysRetired(h, j + 1, k, g, h[i].boot);
      TracksBoots(h[..k], g);
    }
  }

  lemma {:induction false} HeardStays(h: History, i: nat)
    requires i < |h|
    ensures h[i].boot in Boots(h, h[i].gateway)
  {
    if i < |h| - 1 {
      HeardStays(h[..|h| - 1], i);
    }
  }

  lemma {:induction false} StaysRetired(h: History, j: nat, k: nat, gateway: u64, boot: u32)
    requires j <= k <= |h|
    requires gateway in After(h[..j]) && boot in After(h[..j])[gateway].retired
    ensures gateway in After(h[..k]) && boot in After(h[..k])[gateway].retired
  {
    if j < k {
      StaysRetired(h, j, k - 1, gateway, boot);
      assert h[..k][..k - 1] == h[..k - 1];
      TracksBoots(h[..k - 1], gateway);
    }
  }

  // ---- With bounded skew ----

  // `b` is near the highest number heard from its boot: less than half the wire's range away.
  ghost predicate InSkew(h: History, b: Batch) {
    var t := Top(h, b.gateway, b.boot);
    t.Some? ==> t.value - 0x8000_0000 <= b.number < t.value + 0x8000_0000
  }

  ghost predicate AllInSkew(h: History) {
    forall i :: 0 <= i < |h| ==> InSkew(h[..i], h[i])
  }

  lemma AllInSkewPrefix(h: History, i: nat)
    requires AllInSkew(h) && i <= |h|
    ensures AllInSkew(h[..i])
  {
    forall j | 0 <= j < i ensures InSkew(h[..i][..j], h[..i][j]) {
      assert h[..i][..j] == h[..j];
    }
  }

  lemma WrappingDifference(a: nat, b: nat)
    ensures WrappingSub(a % 0x1_0000_0000, b % 0x1_0000_0000) == (a - b) % 0x1_0000_0000
  {
    var x, y := a / 0x1_0000_0000, b / 0x1_0000_0000;
    assert a - b == 0x1_0000_0000 * (x - y) + (a % 0x1_0000_0000 - b % 0x1_0000_0000);
    ModuloShift(a % 0x1_0000_0000 - b % 0x1_0000_0000, x - y);
  }

  lemma ModuloShift(d: int, k: int)
    ensures (0x1_0000_0000 * k + d) % 0x1_0000_0000 == d % 0x1_0000_0000
  {
  }

  lemma NearIsAhead(top: nat, number: nat)
    requires top - 0x8000_0000 <= number < top + 0x8000_0000
    ensures 0 < WrappingSub(number % 0x1_0000_0000, top % 0x1_0000_0000) < 0x8000_0000 <==> number > top
  {
    WrappingDifference(number, top);
  }

  /** Inside a block the stored sequence is the block's highest number, modulo 2^32. */
  lemma {:induction false} Reference(h: History, gateway: u64)
    requires AllInSkew(h)
    ensures gateway in After(h) ==>
      var s := After(h)[gateway];
      Top(h, gateway, s.bootId).Some? && s.sequence == Top(h, gateway, s.bootId).value % 0x1_0000_0000
    ensures forall boot :: Top(h, gateway, boot).Some? <==> boot in Boots(h, gateway)
  {
    if h != [] {
      var n := |h| - 1;
      var b, before := h[n], h[..n];
      AllInSkewPrefix(h, n);
      Reference(before, gateway);
      TracksBoots(before, gateway);
      assert InSkew(before, b);
      if b.gateway == gateway && gateway in After(before) && After(before)[gateway].bootId == b.boot {
        NearIsAhead(Top(before, gateway, b.boot).value, b.number);
      }
    }
  }

  /**
   Exactly what passes, in terms of the batches alone: the first batch of a boot, and
   in the newest boot a batch with a number above every number heard from that boot.
   */
  lemma AcceptedIff(h: History, b: Batch)
    requires AllInSkew(h) && InSkew(h, b)
    ensures AcceptedAfter(h, b) <==>
      || b.boot !in Boots(h, b.gateway)
      || (Newest(h, b.gateway) == Some(b.boot)
          && Top(h, b.gateway, b.boot).Some? && b.number > Top(h, b.gateway, b.boot).value)
  {
    Reference(h, b.gateway);
    TracksBoots(h, b.gateway);
    if b.gateway in After(h) && After(h)[b.gateway].bootId == b.boot {
      NearIsAhead(Top(h, b.gateway, b.boot).value, b.number);
    }
  }

  lemma {:induction false} TopBounds(h: History, i: nat)
    requires i < |h|
    ensures Top(h, h[i].gateway, h[i].boot).Some? && h[i].number <= Top(h, h[i].gateway, h[i].boot).value
  {
    if i < |h| - 1 {
      TopBounds(h[..|h| - 1], i);
    }
  }

  /** Inside one boot accepted numbers strictly increase, so no batch is accepted twice. */
  lemma AcceptedIncrease(h: History, i: nat, j: nat)
    requires AllInSkew(h) && i < j < |h|
    requires h[i].gateway == h[j].gateway && h[i].boot == h[j].boot && AcceptedAfter(h[..j], h[j])
    ensures h[i].number < h[j].number
  {
    AllInSkewPrefix(h, j);
    assert InSkew(h[..j], h[j]);
    AcceptedIff(h[..j], h[j]);
    HeardStays(h[..j], i);
    TopBounds(h[..j], i);
  }
}
