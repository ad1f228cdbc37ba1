/** How long the tunnel controller keeps the entry of a kube-apiserver that has gone silent. */
module TunnelExpiry {
  import opened AddressPlan
  import opened TunnelModel
  import opened TunnelReadiness

  lemma SeenStep(g: Setting, s: State, e: Event, r: Ip6)
    requires r in s.entries && !(e.Packet? && e.remote == r) && r in After(g.parse, s, e).entries
    ensures After(g.parse, s, e).entries[r].lastSeen == s.entries[r].lastSeen
  {
    hide KernelAfter;
  }

  /** lastSeen is the time of the last packet, whatever happens in between. */
  lemma {:induction false} SeenAtLastPacket(
      g: Setting, events: seq<Event>, states: seq<State>, i: nat, j: nat, r: Ip6)
    requires IsRun(g, events, states) && i < j <= |events| && events[i].Packet? && events[i].remote == r
    requires forall k | i < k < j :: !(events[k].Packet? && events[k].remote == r)
    requires forall k | i < k <= j :: r in states[k].entries
    ensures states[j].entries[r].lastSeen == events[i].now
    decreases j
  {
    hide Possible, After;
    if j == i + 1 {
      PacketIsSeen(g, states[i], events[i]);
    } else {
      SeenAtLastPacket(g, events, states, i, j - 1, r);
      assert states[j] == After(g.parse, states[j - 1], events[j - 1]);
      SeenStep(g, states[j - 1], events[j - 1], r);
    }
  }

  lemma PacketIsSeen(g: Setting, s: State, e: Event)
    requires e.Packet?
    ensures e.remote in After(g.parse, s, e).entries && After(g.parse, s, e).entries[e.remote].lastSeen == e.now
  {
  }

  /** Over runs: a cleaning keeps an entry exactly if its last packet is no more than 10 minutes old. */
  lemma KeptIffSeenLately(g: Setting, events: seq<Event>, states: seq<State>, i: nat, j: nat, r: Ip6)
    requires IsRun(g, events, states) && i < j < |events| && events[i].Packet? && events[i].remote == r
    requires forall k | i < k < j :: !(events[k].Packet? && events[k].remote == r)
    requires forall k | i < k <= j :: r in states[k].entries
    requires events[j].Clean?
    ensures r in states[j + 1].entries <==> events[j].now - events[i].now <= 600_000
  {
    SeenAtLastPacket(g, events, states, i, j, r);
    assert states[j + 1] == After(g.parse, states[j], events[j]);
  }
}
