/** Admission of one request (src/state.rs, `reserve_downstream_admission`): a slot in the request window, then a
    concurrency lease, or neither. */
module DownstreamAdmission {
  import opened Collections
  import W = RequestWindows
  import Runs = RequestWindowRuns
  import G = DownstreamGate
  import GateRuns = DownstreamGateRuns

  datatype Rejection = NoSlot(refusal: W.Rejection) | NoLease(busy: G.Rejection)

  /** The window with its old events gone. */
  function Pruned(limits: W.Limits, window: seq<W.Event>, now: nat): seq<W.Event> {
    W.DropOld(window, W.WindowStart(now, W.Retention(limits)))
  }

  /** A slot that was refused leaves the pruned window, one that was granted goes again. */
  lemma AttemptUndone(limits: W.Limits, window: seq<W.Event>, now: nat, id: nat, costAllows: bool)
    requires forall i | 0 <= i < |window| :: window[i].id != id
    ensures var (after, refusal) := W.Attempt(limits, window, now, id, costAllows);
            && after == (if refusal.Some? then Pruned(limits, window, now)
                        else Pruned(limits, window, now) + [W.Event(id, now)])
            && (refusal.None? ==> W.Without(after, id) == Pruned(limits, window, now))
  {
    W.DropOldCounts(window, W.WindowStart(now, W.Retention(limits)), W.WindowStart(now, W.Retention(limits)));
    hide W.Refusal, W.Without, W.DropOld;
    Runs.SlotGone(Pruned(limits, window, now), now, id);
  }

  class Admission {
    const windows: W.RequestWindowStore
    const gate: G.Gate

    constructor (config: G.Config)
      ensures fresh(windows) && fresh(gate) && windows.windows == map[] && gate.runtime == map[] && gate.config == config
    {
      windows := new W.RequestWindowStore();
      gate := new G.Gate(config);
    }

    /** All or nothing: an admitted request holds one slot and one lease, a rejected one holds neither and leaves the
        window as it was up to pruning; other windows and buckets stay as they were. */
    method ReserveAdmission(key: G.Key, limits: W.Limits, eventId: nat, leaseId: nat, now: nat, gateNow: nat,
                            costAllows: bool)
      returns (rejection: Option<Rejection>)
      requires forall i | 0 <= i < |W.WindowAt(windows.windows, key.downstream)| ::
                 W.WindowAt(windows.windows, key.downstream)[i].id != eventId
      modifies windows, gate
      ensures var window := Pruned(limits, old(W.WindowAt(windows.windows, key.downstream)), now);
              W.WindowAt(windows.windows, key.downstream)
                == if rejection.Some? then window else window + [W.Event(eventId, now)]
      ensures forall other | other != key.downstream ::
                W.WindowAt(windows.windows, other) == W.WindowAt(old(windows.windows), other)
      ensures rejection.None? ==> key in gate.runtime && leaseId in gate.runtime[key].admitted
      ensures rejection.Some? ==>
                G.BucketAt(gate.runtime, key).admitted.Keys <= G.BucketAt(old(gate.runtime), key).admitted.Keys
      ensures forall k | k in old(gate.runtime) && k != key :: k in gate.runtime && gate.runtime[k] == old(gate.runtime)[k]
      ensures rejection.Some? && rejection.value.NoSlot? ==> gate.runtime == old(gate.runtime)
      ensures rejection ==
                match W.Attempt(limits, old(W.WindowAt(windows.windows, key.downstream)), now, eventId, costAllows).1
                case Some(refusal) => Some(NoSlot(refusal))
                case None =>
                  match G.TryReserve(gate.config, old(gate.runtime), key, leaseId, gateNow).1
                  case Some(busy) => Some(NoLease(busy))
                  case None => None
    {
      hide W.Attempt, W.Without, W.DropOld, G.TryReserve;
      AttemptUndone(limits, W.WindowAt(windows.windows, key.downstream), now, eventId, costAllows);
      var refusal := windows.Reserve(key.downstream, limits, now, eventId, costAllows);
      if refusal.Some? {
        return Some(NoSlot(refusal.value));
      }
      GateOutcome(gate.config, gate.runtime, key, leaseId, gateNow);
      ghost var before := gate.runtime;
      var busy := gate.TryReserveConcurrency(key, leaseId, gateNow);
      if busy.Some? {
        GateRuns.RejectionAdmitsNothing(gate.config, before, key, leaseId, gateNow);
        windows.Rollback(key.downstream, eventId);
        return Some(NoLease(busy.value));
      }
      return None;
    }
  }

  lemma GateOutcome(c: G.Config, r: G.Runtime, key: G.Key, id: nat, now: nat)
    ensures var (next, rejection) := G.TryReserve(c, r, key, id, now);
            && (rejection.None? ==> key in next && id in next[key].admitted)
            && (forall k | k in r && k != key :: k in next && next[k] == r[k])
  {
    if G.TryReserve(c, r, key, id, now).1.Some? {
      GateRuns.RejectionAdmitsNothing(c, r, key, id, now);
    }
  }
}
