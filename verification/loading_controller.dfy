/**
 * `LoadingController`: the overlay shown while requests are in flight.
 * Only its bookkeeping is modelled: the active counter, the id of the most
 * recent scope, the cancel callback, the timeout decision and the
 * idempotent scope release. Overlay timing is left to the presentation.
 */
module LoadingController {
  import opened Wrappers

  datatype LoadingType = Connect | Login | FetchRoomList | EnterRoom | LeaveRoom | CreateRoom

  /** The only cancel callback the session registers: cancel the connect attempt. */
  datatype CancelAction = CancelConnect

  /** The running `TimeoutCo` coroutine: the scope it watches and its delay in seconds. */
  datatype Timer = Timer(scope: nat, seconds: int)

  /**
   * `topId` is the id of the most recent scope (`Guid.Empty`, here 0, before
   * the first); `nextId` models `Guid.NewGuid` as a counter, so every id
   * handed out so far is below it.
   */
  datatype Controller = Controller(
    activeCount: nat,
    topId: nat,
    nextId: nat,
    onCancelTop: Option<CancelAction>,
    timer: Option<Timer>,
    overlayVisible: bool,
    cancelVisible: bool,
    title: string)

  /** A `Scope` handle; `owned` is false once `Dispose` has cleared its owner. */
  datatype Scope = Scope(id: nat, owned: bool)

  const DefaultTimeoutSec: int := 8
  const TimeoutTitle: string := "Timeout\U{2026}"

  const Initial := Controller(0, 0, 1, None, None, false, false, "")

  /** Every id handed out so far, and the top id, are below `nextId`. */
  predicate Valid(c: Controller)
  {
    c.topId < c.nextId
  }

  /**
   * `Begin`: counts one more active scope, makes the fresh scope the top one,
   * installs its cancel callback, shows the overlay and restarts the timeout.
   */
  function Begin(c: Controller, kind: LoadingType, title: string, onCancel: Option<CancelAction>, timeoutSec: Option<int>)
    : (r: (Controller, Scope))
    ensures Valid(r.0)
    ensures r.0.activeCount == c.activeCount + 1
    ensures r.1.owned && r.0.topId == r.1.id
    ensures r.1.id >= c.nextId
    ensures r.0.onCancelTop == onCancel
    ensures r.0.overlayVisible && r.0.title == title && r.0.cancelVisible == onCancel.Some?
    ensures r.0.timer == Some(Timer(r.1.id, timeoutSec.GetOr(DefaultTimeoutSec)))
  {
    var id := c.nextId;
    var c1 := c.(activeCount := c.activeCount + 1, topId := id, nextId := id + 1, onCancelTop := onCancel,
                 overlayVisible := true, title := title, cancelVisible := onCancel.Some?,
                 timer := Some(Timer(id, timeoutSec.GetOr(DefaultTimeoutSec))));
    (c1, Scope(id, true))
  }

  /** `HideWithMinShow`: stops the timeout, drops the cancel callback and hides the overlay. */
  function Hide(c: Controller): (r: Controller)
    ensures r.timer.None? && r.onCancelTop.None? && !r.overlayVisible
    ensures r.(timer := c.timer, onCancelTop := c.onCancelTop, overlayVisible := c.overlayVisible) == c
  {
    c.(timer := None, onCancelTop := None, overlayVisible := false)
  }

  /**
   * `End(id)`: decrements the counter, never below zero, and hides exactly
   * when it reaches zero. The top and non-top branches of the source do the
   * same thing, so the id plays no part.
   */
  function End(c: Controller, id: nat): (r: Controller)
    ensures r.activeCount == if c.activeCount == 0 then 0 else c.activeCount - 1
    ensures r.activeCount == 0 ==> !r.overlayVisible && r.timer.None? && r.onCancelTop.None?
    ensures r.activeCount > 0 ==> r == c.(activeCount := r.activeCount)
    ensures r.topId == c.topId && r.nextId == c.nextId && r.title == c.title
  {
    var count := if c.activeCount - 1 < 0 then 0 else c.activeCount - 1;
    var c1 := c.(activeCount := count);
    if id != c.topId then
      (if count == 0 then Hide(c1) else c1)
    else
      (if count == 0 then Hide(c1) else c1)
  }

  /** Ending a scope has the same effect whichever scope it is. */
  lemma EndIgnoresId(c: Controller, a: nat, b: nat)
    ensures End(c, a) == End(c, b)
  {
  }

  /** `Scope.Dispose`: ends the scope once, then forgets its owner. */
  function Dispose(c: Controller, s: Scope): (r: (Controller, Scope))
    ensures !r.1.owned && r.1.id == s.id
    ensures s.owned ==> r.0 == End(c, s.id)
    ensures !s.owned ==> r.0 == c
  {
    if !s.owned then (c, s) else (End(c, s.id), s.(owned := false))
  }

  /** Disposing twice is the same as disposing once. */
  lemma DisposeIdempotent(c: Controller, s: Scope)
    ensures var (c1, s1) := Dispose(c, s); Dispose(c1, s1) == (c1, s1)
  {
  }

  /**
   * `End` applied `n` times, as when `n` live scopes are released one after
   * another: the counter drops by `n`, saturating at zero.
   */
  function EndTimes(c: Controller, n: nat): (r: Controller)
    ensures r.activeCount == if c.activeCount <= n then 0 else c.activeCount - n
    ensures n > 0 && r.activeCount == 0 ==> !r.overlayVisible && r.timer.None? && r.onCancelTop.None?
    ensures r.activeCount > 0 ==> r == c.(activeCount := r.activeCount)
    ensures r.topId == c.topId && r.nextId == c.nextId && r.title == c.title
    decreases n
  {
    if n == 0 then c else EndTimes(End(c, c.topId), n - 1)
  }

  /**
   * `TimeoutCo` after its delay: relabels the overlay only if the scope it
   * watches is still the top one and something is active. It never ends a
   * scope or touches the counter.
   */
  function TimerElapsed(c: Controller): (r: Controller)
    ensures r.activeCount == c.activeCount && r.topId == c.topId && r.nextId == c.nextId
    ensures r.onCancelTop == c.onCancelTop && r.overlayVisible == c.overlayVisible
    ensures r.timer.None?
    ensures r.title != c.title ==>
      c.timer.Some? && c.timer.value.scope == c.topId && c.activeCount > 0 && r.title == TimeoutTitle
    ensures c.timer.Some? && c.timer.value.scope == c.topId && c.activeCount > 0 ==> r.title == TimeoutTitle
  {
    match c.timer
    case None => c
    case Some(t) =>
      var c1 := c.(timer := None);
      if t.scope == c.topId && c.activeCount > 0 then c1.(title := TimeoutTitle) else c1
  }

  /** Two scopes begun one after the other get different ids, and the later one is on top. */
  lemma BeginGivesFreshIds(c: Controller, k1: LoadingType, k2: LoadingType, t1: string, t2: string,
                           a1: Option<CancelAction>, a2: Option<CancelAction>, s1: Option<int>, s2: Option<int>)
    ensures var (c1, sc1) := Begin(c, k1, t1, a1, s1);
            var (c2, sc2) := Begin(c1, k2, t2, a2, s2);
            sc1.id != sc2.id && c2.topId == sc2.id && c2.activeCount == c.activeCount + 2
  {
  }
}
