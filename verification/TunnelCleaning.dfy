/** When the tunnel controller cleans (pkg/shoot_client/tunnel/tunnel.go). A packet starts a cleaning if nextClean still
    lies ahead, and then moves it. */
module TunnelCleaning {

  const CLEAN_UP_PERIOD: int := 900_000

  function NextCleanAfter(nextClean: int, now: int): int {
    if now < nextClean then now + CLEAN_UP_PERIOD else nextClean
  }

  /** nextClean of a controller made at start, after packets at the given times. */
  function NextClean(start: int, packets: seq<int>): int {
    if packets == [] then start + CLEAN_UP_PERIOD
    else NextCleanAfter(NextClean(start, packets[..|packets| - 1]), packets[|packets| - 1])
  }

  /** Whether packet k starts a cleaning. */
  predicate Cleans(start: int, packets: seq<int>, k: nat)
    requires k < |packets|
  {
    packets[k] < NextClean(start, packets[..k])
  }

  /** How long the controller was quiet before packet i. */
  function Gap(start: int, packets: seq<int>, i: nat): int
    requires i < |packets|
  {
    packets[i] - Latest(start, packets, i)
  }

  /** The time of the last packet before packet i, or of the start. */
  function Latest(start: int, packets: seq<int>, i: nat): int
    requires i <= |packets|
  {
    if i == 0 then start else packets[i - 1]
  }

  ghost predicate InOrder(start: int, packets: seq<int>) {
    forall i | 0 <= i < |packets| :: Gap(start, packets, i) >= 0
  }

  /** No gap up to packet k, excluded, reaches the period. */
  ghost predicate Busy(start: int, packets: seq<int>, k: nat)
    requires k <= |packets|
  {
    forall i | 0 <= i < k :: Gap(start, packets, i) < CLEAN_UP_PERIOD
  }

  /** While packets keep coming, nextClean keeps a period ahead of them; after one quiet period it stays behind. */
  lemma {:induction false} NextCleanIs(start: int, packets: seq<int>, k: nat)
    requires InOrder(start, packets) && k <= |packets|
    ensures if Busy(start, packets, k) then NextClean(start, packets[..k]) == Latest(start, packets, k) + CLEAN_UP_PERIOD
            else NextClean(start, packets[..k]) <= Latest(start, packets, k)
  {
    if k > 0 {
      NextCleanIs(start, packets, k - 1);
      assert packets[..k][..k - 1] == packets[..k - 1];
      assert Gap(start, packets, k - 1) >= 0;
      if Gap(start, packets, k - 1) < CLEAN_UP_PERIOD && Busy(start, packets, k - 1) {
        assert Busy(start, packets, k);
      }
    }
  }

  /** A packet starts a cleaning exactly when the controller has not been quiet for a period since it was made. */
  lemma CleansIff(start: int, packets: seq<int>, k: nat)
    requires InOrder(start, packets) && k < |packets|
    ensures Cleans(start, packets, k) <==> forall i | 0 <= i <= k :: Gap(start, packets, i) < 900_000
  {
    NextCleanIs(start, packets, k);
    assert Gap(start, packets, k) >= 0;
    if Busy(start, packets, k) && Gap(start, packets, k) < CLEAN_UP_PERIOD {
      assert forall i | 0 <= i <= k :: Gap(start, packets, i) < 900_000;
    }
  }

  /** One quiet period ends all cleaning, though it is then overdue. */
  lemma QuietPeriodEndsCleaning(start: int, packets: seq<int>, quiet: nat, k: nat)
    requires InOrder(start, packets) && quiet <= k < |packets| && Gap(start, packets, quiet) >= 900_000
    ensures !Cleans(start, packets, k) && packets[k] >= NextClean(start, packets[..k])
  {
    CleansIff(start, packets, k);
  }

  /** For as long as packets come in shorter intervals, every single one starts a cleaning, though none is due. */
  lemma BusyCleansAlways(start: int, packets: seq<int>, k: nat)
    requires InOrder(start, packets) && Busy(start, packets, |packets|) && k < |packets|
    ensures Cleans(start, packets, k) && packets[k] < NextClean(start, packets[..k])
  {
    CleansIff(start, packets, k);
  }
}
