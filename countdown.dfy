/**
 * The auto-capture countdown shared by the document scanner and the selfie screen: idle
 * (`null`), then 3, 2, 1, 0, where reaching 0 fires a capture. Each tick is one second.
 */
module Countdown {
  import opened Wrappers

  /** The first value of a started countdown. */
  const Start: nat := 3

  /** A countdown is idle or one of 3, 2, 1, 0. */
  predicate InRange(c: Option<nat>) {
    c.None? || c.value <= Start
  }

  /**
   * The effect that keeps the countdown in step with readiness: an idle countdown starts
   * at 3 when the screen is ready and `armed` (scanning, or capturing with no selfie yet),
   * and a running one is cancelled as soon as readiness is lost.
   */
  function Reconcile(ready: bool, armed: bool, c: Option<nat>): (r: Option<nat>)
    ensures ready && armed && c.None? ==> r == Some(Start)
    ensures !ready ==> r.None?
    ensures ready && c.Some? ==> r == c
    ensures ready && !armed ==> r == c
    ensures InRange(c) ==> InRange(r)
  {
    if ready && c.None? && armed then Some(Start)
    else if !ready && c.Some? then None
    else c
  }

  /** The countdown is idle after the effect exactly when readiness is missing or it cannot start. */
  lemma ReconcileIdleIff(ready: bool, armed: bool, c: Option<nat>)
    ensures Reconcile(ready, armed, c).None? <==> !ready || (c.None? && !armed)
  {
  }

  /** Running the effect again changes nothing. */
  lemma ReconcileIdempotent(ready: bool, armed: bool, c: Option<nat>)
    ensures Reconcile(ready, armed, Reconcile(ready, armed, c)) == Reconcile(ready, armed, c)
  {
  }

  /** One second: a positive countdown goes down by one; idle and 0 have no timer. */
  function Tick(c: Option<nat>): (r: Option<nat>)
    ensures c.Some? && c.value > 0 ==> r == Some(c.value - 1)
    ensures c.None? || c.value == 0 ==> r == c
    ensures InRange(c) ==> InRange(r)
  {
    if c.Some? && c.value > 0 then Some(c.value - 1) else c
  }

  /** The tick that takes the countdown to 0, which fires the capture. */
  predicate TickFires(c: Option<nat>) {
    c == Some(1)
  }

  /** `k` seconds with readiness held: each tick followed by the readiness effect. */
  function HeldTicks(armed: bool, c: Option<nat>, k: nat): Option<nat>
    decreases k
  {
    if k == 0 then c else HeldTicks(armed, Reconcile(true, armed, Tick(c)), k - 1)
  }

  /** With readiness held, a countdown at `n` reaches `n - k` after `k` seconds. */
  lemma {:induction false} HeldCountsDown(armed: bool, n: nat, k: nat)
    requires k <= n
    ensures HeldTicks(armed, Some(n), k) == Some(n - k)
  {
    if k > 0 {
      assert Reconcile(true, armed, Tick(Some(n))) == Some(n - 1);
      HeldCountsDown(armed, n - 1, k - 1);
    }
  }

  /** A started countdown with readiness held fires on its third second. */
  lemma HeldReadinessFires(armed: bool)
    ensures HeldTicks(armed, Some(Start), Start - 1) == Some(1)
    ensures TickFires(HeldTicks(armed, Some(Start), Start - 1))
    ensures HeldTicks(armed, Some(Start), Start) == Some(0)
  {
    HeldCountsDown(armed, Start, Start - 1);
    HeldCountsDown(armed, Start, Start);
  }
}
