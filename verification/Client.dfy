/** A connection as it runs (crates/graph-client/src/conn.rs): its active endpoint and its
    snapshot pins, and the loop of `call_at`. */
module Client {
  import opened Basics
  import opened Options
  import opened Retry

  class Conn {
    const cfg: Config
    const parses: string -> bool
    var active: string
    var pins: map<nat, string>

    constructor (cfg: Config, parses: string -> bool, endpoint: string)
      ensures this.cfg == cfg && this.parses == parses && active == endpoint && pins == map[]
    {
      this.cfg, this.parses, active, pins := cfg, parses, endpoint, map[];
    }

    method SwitchTo(addr: string) returns (ok: bool)
      modifies this`active
      ensures ok == parses(addr) && active == if ok then addr else old(active)
    {
      ok := parses(addr);
      if ok {
        active := addr;
      }
    }

    method Rotate()
      modifies this`active
      ensures active == Rotated(cfg.endpoints, parses, old(active))
    {
      var eps := cfg.endpoints;
      if |eps| < 2 {
        return;
      }
      var i := 0;
      while i < |eps| && eps[i] != active
        invariant 0 <= i <= |eps| && active == old(active)
        invariant forall j :: 0 <= j < i ==> eps[j] != active
      {
        i := i + 1;
      }
      var next := if i == |eps| || i + 1 == |eps| then 0 else i + 1;
      var _ := SwitchTo(eps[next]);
    }

    /** The handle is remembered with its node. */
    method Pin(id: nat, endpoint: string) returns (ok: bool)
      modifies this`pins
      ensures ok == (endpoint == active || parses(endpoint))
      ensures pins == if ok then old(pins)[id := endpoint] else old(pins)
    {
      ok := endpoint == active || parses(endpoint);
      if ok {
        pins := pins[id := endpoint];
      }
    }

    method Unpin(id: nat)
      modifies this`pins
      ensures pins == old(pins) - {id}
    {
      pins := pins - {id};
    }

    /** What an answer asks for, the endpoint changed on the way. */
    method Follow(c: Call, s: State, st: Status, now: nat, draw: nat) returns (p: Plan)
      requires c.cfg == cfg && c.parses == parses && s.active == active
      modifies this`active
      ensures p == Planned(c, s, st, now, draw) && active == p.active
    {
      var endpoint := if c.pin.Some? then c.pin.value else active;
      if c.pin.Some? {
        if !Retryable(c.kind, st) || st.detail.NoLeader? {
          return End(Failed(MapStatus(endpoint, st)), active);
        }
        return Wait(Jitter(cfg, s.attempt, draw), active, s.switches);
      }
      if st.detail.NotLeader? && st.detail.leader.Some? {
        if now >= c.deadline {
          return End(Failed(NotLeaderError(st.detail.leader)), active);
        }
        var ok := SwitchTo(st.detail.leader.value);
        if !ok {
          return End(Failed(BadEndpoint(st.detail.leader.value)), active);
        }
        return Wait(SwitchDelay(cfg, s.switches + 1, s.attempt, draw), active, s.switches + 1);
      }
      if st.detail.NoLeader? {
        Rotate();
        var d := Clamp(st.detail.retryAfterMs * MS, cfg.base, cfg.cap);
        if d.None? {
          return End(Panicked, active);
        }
        return Wait(d.value, active, 0);
      }
      if Retryable(c.kind, st) || ReadMovesOn(c.kind, |cfg.endpoints|, st) {
        Rotate();
        return Wait(Jitter(cfg, s.attempt, draw), active, 0);
      }
      if TransientRefusal(c.kind, st) {
        return Wait(Min(Jitter(cfg, s.attempt, draw), TRANSIENT_RETRY_MAX), active, 0);
      }
      return End(Failed(MapStatus(endpoint, st)), active);
    }

    /** One round of the loop. */
    method Attempt(c: Call, s: State, e: Event) returns (r: Round)
      requires c.cfg == cfg && c.parses == parses && s.active == active
      modifies this`active
      ensures r == Step(c, s, e) && active == if r.Stop? then r.active else r.next.active
    {
      var endpoint := if c.pin.Some? then c.pin.value else active;
      var now := s.now + e.took;
      if e.reply.None? {
        return Stop(Answered(endpoint), active);
      }
      var p := Follow(c, s, e.reply.value, now, e.draw);
      if p.End? {
        return Stop(p.outcome, active);
      }
      now := now + e.pause;
      if now + p.delay > c.deadline {
        return Stop(Failed(DeadlineError(c.kind, endpoint, e.reply.value, cfg)), active);
      }
      return Again(State(active, now + p.delay + e.late, s.attempt + 1, p.switches), p.delay, now + p.delay);
    }

    /** `call_at`, against as much of what the world does as is given: the events that were
        retried, and the round that ended the call. Only a world that ends in a retry leaves the
        call unfinished, and with a back-off none of more than `Left` events does. */
    method CallAt(kind: Kind, pin: Option<string>, start: nat, world: seq<Event>)
        returns (outcome: Option<Outcome>, ghost c: Call, ghost es: seq<Event>)
      modifies this`active
      ensures c == Call(cfg, parses, kind, pin, start + if kind.Read? then cfg.readBudget else cfg.writeDeadline)
      ensures Retries(c, State(old(active), start, 0, 0), es) && es <= world
      ensures var last := After(c, State(old(active), start, 0, 0), es);
              if outcome.Some? then |es| < |world| && Step(c, last, world[|es|]) == Stop(outcome.value, active)
              else es == world && active == last.active
      ensures BacksOff(cfg) && |world| > Left(c, State(old(active), start, 0, 0)) ==> outcome.Some?
    {
      var call := Call(cfg, parses, kind, pin, start + if kind.Read? then cfg.readBudget else cfg.writeDeadline);
      var s := State(active, start, 0, 0);
      c, es := call, [];
      ghost var s0 := s;
      var i := 0;
      while i < |world|
        invariant i <= |world| && es == world[..i] && s.active == active
        invariant Retries(call, s0, es) && After(call, s0, es) == s
      {
        var r := Attempt(call, s, world[i]);
        if r.Stop? {
          return Some(r.outcome), c, es;
        }
        RetriesSnoc(call, s0, es, world[i]);
        s, es, i := r.next, es + [world[i]], i + 1;
      }
      if BacksOff(cfg) {
        FewRetries(call, s0, es);
      }
      return None, c, es;
    }
  }

  lemma {:induction false} RetriesSnoc(c: Call, s: State, es: seq<Event>, e: Event)
    requires Retries(c, s, es) && Step(c, After(c, s, es), e).Again?
    ensures Retries(c, s, es + [e]) && After(c, s, es + [e]) == Step(c, After(c, s, es), e).next
    decreases es
  {
    if es != [] {
      RetriesSnoc(c, Step(c, s, es[0]).next, es[1..], e);
      assert (es + [e])[1..] == es[1..] + [e];
    } else {
      assert (es + [e])[1..] == [];
    }
  }
}
