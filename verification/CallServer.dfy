/** The call manager's dictionaries and the call log, changed in place as a frame is handled
    (app/ws/calls.py). Every frame is one step of `Calls.Handle`. */
module CallServer {
  import opened Prelude
  import opened Throttle
  import opened Calls

  class CallLog {
    var rows: seq<Row>

    constructor ()
      ensures rows == []
    {
      rows := [];
    }

    method Record(caller: Sub, callee: Sub, kind: Kind, status: Option<Status>, ended: bool) returns (id: nat)
      modifies this
      ensures id == |old(rows)| && rows == old(rows) + [Row(caller, callee, kind, status, ended)]
    {
      id := |rows|;
      rows := rows + [Row(caller, callee, kind, status, ended)];
    }

    method Update(id: nat, status: Status, ended: bool)
      modifies this
      ensures rows == Updated(old(rows), id, status, ended)
    {
      if id >= |rows| {
        return;
      }
      rows := rows[id := rows[id].(status := Some(status))];
      if ended {
        rows := rows[id := rows[id].(ended := true)];
      }
    }
  }

  class CallManager {
    var calls: map<Pair, Phase>
    var iceSlots: map<Pair, real>
    var logIds: map<Pair, nat>

    constructor ()
      ensures calls == map[] && iceSlots == map[] && logIds == map[]
    {
      calls, iceSlots, logIds := map[], map[], map[];
    }

    method Offer(a: Sub, b: Sub) returns (ok: bool)
      modifies this`calls
      ensures ok <==> PairKey(a, b) !in old(calls)
      ensures calls == if ok then old(calls)[PairKey(a, b) := Ringing] else old(calls)
    {
      var key := PairKey(a, b);
      if key in calls {
        return false;
      }
      calls := calls[key := Ringing];
      return true;
    }

    method Answer(a: Sub, b: Sub) returns (ok: bool)
      modifies this`calls
      ensures ok <==> PairKey(a, b) in old(calls) && old(calls)[PairKey(a, b)] == Ringing
      ensures calls == if ok then old(calls)[PairKey(a, b) := Connected] else old(calls)
    {
      var key := PairKey(a, b);
      if key in calls && calls[key] == Ringing {
        calls := calls[key := Connected];
        return true;
      }
      return false;
    }

    method Close(a: Sub, b: Sub) returns (wasConnected: bool, logId: Option<nat>)
      modifies this`calls, this`logIds
      ensures wasConnected <==> PairKey(a, b) in old(calls) && old(calls)[PairKey(a, b)] == Connected
      ensures logId == if PairKey(a, b) in old(logIds) then Some(old(logIds)[PairKey(a, b)]) else None
      ensures calls == old(calls) - {PairKey(a, b)} && logIds == old(logIds) - {PairKey(a, b)}
    {
      var key := PairKey(a, b);
      wasConnected := key in calls && calls[key] == Connected;
      logId := if key in logIds then Some(logIds[key]) else None;
      logIds := logIds - {key};
      calls := calls - {key};
    }

    method IceAllowed(a: Sub, b: Sub, now: real) returns (ok: bool)
      modifies this`iceSlots
      ensures ok <==> (PairKey(a, b) in old(iceSlots) ==> now - old(iceSlots)[PairKey(a, b)] >= ICE_INTERVAL)
      ensures iceSlots == Next(old(iceSlots), PairKey(a, b), now, ICE_INTERVAL)
      ensures !ok ==> iceSlots == old(iceSlots)
    {
      var key := PairKey(a, b);
      if key in iceSlots && now - iceSlots[key] < ICE_INTERVAL {
        return false;
      }
      iceSlots := iceSlots[key := now];
      if |iceSlots| > SWEEP_ABOVE {
        iceSlots := map k | k in iceSlots && now - iceSlots[k] < ICE_INTERVAL :: iceSlots[k];
      }
      return true;
    }
  }

  class Server {
    const manager: CallManager
    const log: CallLog

    ghost function View(): System
      reads this, manager, log
    {
      System(manager.calls, manager.iceSlots, manager.logIds, log.rows)
    }

    constructor ()
      ensures View() == IDLE && fresh(manager) && fresh(log)
    {
      manager := new CallManager();
      log := new CallLog();
    }

    /** The bijection between open rows and active pairs is kept, and the step is that of the model. */
    method HandleCall(f: Frame) returns (out: seq<Sent>)
      requires InSync(View())
      modifies manager, log
      ensures (View(), out) == Handle(old(View()), f)
      ensures GetsThrough(old(View()), f) ==> out == [Sent(f.target.value, Relay(f.op))]
      ensures forall m | m in out :: if m.what.Relay? then f.target == Some(m.to) else m.to == f.sender
      ensures InSync(View())
    {
      NoticesAreAddressed(View(), f);
      hide InSync, Next, PairKey, Updated, GetsThrough;
      HandleKeepsSync(View(), f);
      if f.op == Unknown || f.target.None? || f.sender == f.target.value {
        return [];
      }
      var target := f.target.value;
      var kind := if f.kind.Some? then f.kind.value else Audio;
      if f.payloadSize > PAYLOAD_MAX {
        return [Sent(f.sender, Error)];
      }
      if !f.friends {
        return [];
      }
      match f.op {
        case Offer =>
          if !f.online {
            var _ := log.Record(f.sender, target, kind, Some(Missed), true);
            return [Sent(f.sender, Unavailable)];
          }
          var ringing := manager.Offer(f.sender, target);
          if !ringing {
            var _ := log.Record(f.sender, target, kind, Some(Missed), true);
            return [Sent(f.sender, Busy)];
          }
          var id := log.Record(f.sender, target, kind, None, false);
          manager.logIds := manager.logIds[PairKey(f.sender, target) := id];
        case Answer =>
          var answered := manager.Answer(f.sender, target);
          if !answered {
            return [Sent(f.sender, Invalid)];
          }
          var key := PairKey(f.sender, target);
          if key in manager.logIds {
            log.Update(manager.logIds[key], Accepted, false);
          }
        case Ice =>
          if PairKey(f.sender, target) !in manager.calls {
            return [];
          }
          var allowed := manager.IceAllowed(f.sender, target, f.now);
          if !allowed {
            return [];
          }
        case Reject | End =>
          var wasConnected, logId := manager.Close(f.sender, target);
          if logId.Some? {
            var status := if f.op == Reject then Rejected else if wasConnected then Accepted else Missed;
            log.Update(logId.value, status, true);
          }
      }
      return [Sent(target, Relay(f.op))];
    }
  }
}
