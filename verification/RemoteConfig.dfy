/** The check that the ports of the streams of one process do not clash. */
module RemoteConfig {
  import A = PortsAllocator

  const PORT_MIN := 1024
  const PORT_MAX := 65000
  const RTCP_FIRST_OFFSET := 1
  const RTCP_SECOND_OFFSET := 5
  const CAPS_OFFSET := 9

  /** The four ports of a configuration. */
  function Footprint(port: int): set<int> {
    {port, port + RTCP_FIRST_OFFSET, port + RTCP_SECOND_OFFSET, port + CAPS_OFFSET}
  }

  predicate InRange(port: int) {
    PORT_MIN <= port <= PORT_MAX
  }

  predicate Accepts(used: set<int>, port: int) {
    InRange(port) && Footprint(port) !! used
  }

  /** The distances at which two footprints meet. */
  predicate Clash(p: int, q: int) {
    (if p >= q then p - q else q - p) in {0, 1, 4, 5, 8, 9}
  }

  lemma {:induction false} ClashExactly(p: int, q: int)
    ensures Footprint(p) !! Footprint(q) <==> !Clash(p, q)
  {
    assert p in Footprint(p) && p + 1 in Footprint(p) && p + 5 in Footprint(p) && p + 9 in Footprint(p);
    assert q in Footprint(q) && q + 1 in Footprint(q) && q + 5 in Footprint(q) && q + 9 in Footprint(q);
  }

  // ----- Runs

  datatype Event = DoCheck(port: int) | DoCleanup(port: int)

  /** The used ports, and the ports of the configurations whose check succeeded and that were not cleaned up. */
  datatype State = State(used: set<int>, live: set<int>)

  /** Only a live configuration cleans up: a failed check ends the constructor that made it. */
  predicate Enabled(s: State, event: Event) {
    event.DoCleanup? ==> event.port in s.live
  }

  function Step(s: State, event: Event): State {
    match event
    case DoCheck(p) => if Accepts(s.used, p) then State(s.used + Footprint(p), s.live + {p}) else s
    case DoCleanup(p) => State(s.used - Footprint(p), s.live - {p})
  }

  predicate IsRun(events: seq<Event>) {
    events == [] || (IsRun(events[..|events| - 1]) && Enabled(Run(events[..|events| - 1]), events[|events| - 1]))
  }

  function Run(events: seq<Event>): State {
    if events == [] then State({}, {}) else Step(Run(events[..|events| - 1]), events[|events| - 1])
  }

  /** Port x belongs to the footprint of q. */
  predicate Owns(q: int, x: int) {
    x == q || x == q + RTCP_FIRST_OFFSET || x == q + RTCP_SECOND_OFFSET || x == q + CAPS_OFFSET
  }

  /** The used ports are the union of the footprints of the live configurations, which do not meet. */
  ghost predicate Inv(s: State) {
    && (forall x :: x in s.used <==> exists q :: q in s.live && Owns(q, x))
    && (forall p, q, x :: p in s.live && q in s.live && Owns(p, x) && Owns(q, x) ==> p == q)
    && (forall p :: p in s.live ==> InRange(p))
  }

  lemma {:induction false} AddFootprint(s: State, p: int, feet: set<int>)
    requires Inv(s) && InRange(p)
    requires forall x :: x in feet <==> Owns(p, x)
    requires forall x :: x in feet ==> x !in s.used
    ensures Inv(State(s.used + feet, s.live + {p}))
  {
    var t := State(s.used + feet, s.live + {p});
    forall x
      ensures x in t.used <==> exists q :: q in t.live && Owns(q, x)
    {
      if x in s.used {
        var q :| q in s.live && Owns(q, x);
        assert q in t.live;
      } else if x in feet {
        assert p in t.live && Owns(p, x);
      }
    }
    assert forall q, x :: q in s.live && Owns(q, x) ==> x in s.used;
  }

  lemma {:induction false} CleanupKeepsInv(s: State, p: int)
    requires Inv(s) && p in s.live
    ensures Inv(Step(s, DoCleanup(p)))
  {
    var t := Step(s, DoCleanup(p));
    forall x
      ensures x in t.used <==> exists q :: q in t.live && Owns(q, x)
    {
      assert x in t.used <==> x in s.used && !Owns(p, x);
      if x in t.used {
        var q :| q in s.live && Owns(q, x);
        assert q in t.live;
      }
    }
  }

  lemma {:induction false} StepKeepsInv(s: State, event: Event)
    requires Inv(s) && Enabled(s, event)
    ensures Inv(Step(s, event))
  {
    match event
    case DoCheck(p) => if Accepts(s.used, p) { AddFootprint(s, p, Footprint(p)); }
    case DoCleanup(p) => CleanupKeepsInv(s, p);
  }

  lemma {:induction false} RunKeepsInv(events: seq<Event>)
    requires IsRun(events)
    ensures Inv(Run(events))
  {
    if events == [] {
    } else {
      RunKeepsInv(events[..|events| - 1]);
      StepKeepsInv(Run(events[..|events| - 1]), events[|events| - 1]);
    }
  }

  /** After any run a port is accepted exactly when it is in range and its distance to every live port is harmless. */
  lemma {:induction false} AcceptsExactly(events: seq<Event>, p: int)
    requires IsRun(events)
    ensures Accepts(Run(events).used, p)
       <==> 1024 <= p <= 65000 && forall q :: q in Run(events).live ==> !Clash(p, q)
  {
    RunKeepsInv(events);
    var s := Run(events);
    forall q | q in s.live
      ensures Footprint(p) !! Footprint(q) <==> !Clash(p, q)
    {
      ClashExactly(p, q);
    }
    if Accepts(s.used, p) {
      forall q, x | q in s.live && Owns(q, x)
        ensures x !in Footprint(p)
      {
        assert x in s.used;
      }
    }
    if forall q :: q in s.live ==> !Clash(p, q) {
      forall x | x in s.used
        ensures x !in Footprint(p)
      {
        var q :| q in s.live && Owns(q, x);
      }
    }
  }

  /**
   * A new port from an allocator whose step is at least 10 never clashes: it is refused only for being out of range.
   */
  lemma {:induction false} AllocatedPortsNeverClash(g: A.Range, events: seq<Event>, p: int)
    requires A.Usable(g) && g.increment >= 10
    requires IsRun(events) && A.OnGrid(g, p)
    requires forall q :: q in Run(events).live ==> A.OnGrid(g, q) && q != p
    ensures Accepts(Run(events).used, p) <==> 1024 <= p <= 65000
  {
    AcceptsExactly(events, p);
    forall q | q in Run(events).live
      ensures !Clash(p, q)
    {
      if p < q { A.GridSteps(g, p, q); } else { A.GridSteps(g, q, p); }
    }
  }

  /** The settings that the allocator has by default. */
  const DEFAULT_RANGE := A.Range(10000, 10, 65535)

  /**
   * The default allocator goes up to 65535 and this check to 65000: of its ports, those above 65000 are refused and no
   * other, and its last port below the maximum is one of them.
   */
  lemma {:induction false} DefaultPortsRefusedExactly(events: seq<Event>, p: int)
    requires IsRun(events) && A.OnGrid(DEFAULT_RANGE, p)
    requires forall q :: q in Run(events).live ==> A.OnGrid(DEFAULT_RANGE, q) && q != p
    ensures !Accepts(Run(events).used, p) <==> p > 65000
    ensures A.OnGrid(DEFAULT_RANGE, 65530) && 65000 < 65530 < DEFAULT_RANGE.maximum
  {
    AllocatedPortsNeverClash(DEFAULT_RANGE, events, p);
    A.GridBottom(DEFAULT_RANGE, p);
    A.GridAt(DEFAULT_RANGE, 5553);
  }

  // ----- The code

  /** The static set that all configurations of a process share. */
  class UsedPorts {
    var ports: set<int>

    constructor ()
      ensures ports == {}
    {
      ports := {};
    }
  }

  class RemoteConfig {
    const portNumber: int
    const usedPorts: UsedPorts

    constructor (portNumber: int, usedPorts: UsedPorts)
      ensures this.portNumber == portNumber && this.usedPorts == usedPorts
    {
      this.portNumber, this.usedPorts := portNumber, usedPorts;
    }

    function Port(): int { portNumber }

    function RtcpFirstPort(): int { portNumber + RTCP_FIRST_OFFSET }

    function RtcpSecondPort(): int { portNumber + RTCP_SECOND_OFFSET }

    function CapsPort(): int { portNumber + CAPS_OFFSET }

    method CleanupPorts()
      modifies usedPorts
      ensures usedPorts.ports == old(usedPorts.ports) - Footprint(portNumber)
    {
      usedPorts.ports := usedPorts.ports - {CapsPort()};
      usedPorts.ports := usedPorts.ports - {RtcpSecondPort()};
      usedPorts.ports := usedPorts.ports - {RtcpFirstPort()};
      usedPorts.ports := usedPorts.ports - {Port()};
    }

    /** False stands for the error thrown; nothing is inserted then. */
    method CheckPorts() returns (ok: bool)
      modifies usedPorts
      ensures ok <==> Accepts(old(usedPorts.ports), portNumber)
      ensures usedPorts.ports == old(usedPorts.ports) + (if ok then Footprint(portNumber) else {})
    {
      if portNumber < PORT_MIN || portNumber > PORT_MAX { return false; }
      if Port() in usedPorts.ports { return false; }
      if RtcpFirstPort() in usedPorts.ports { return false; }
      if RtcpSecondPort() in usedPorts.ports { return false; }
      if CapsPort() in usedPorts.ports { return false; }
      usedPorts.ports := usedPorts.ports + {Port()};
      usedPorts.ports := usedPorts.ports + {RtcpFirstPort()};
      usedPorts.ports := usedPorts.ports + {RtcpSecondPort()};
      usedPorts.ports := usedPorts.ports + {CapsPort()};
      return true;
    }
  }
}
