/** The two client loops in main of projects/hfdl_receiver/server/hfdl-receiver.c: each phase
    goes on from a static index and stops after one client that cost a system call. */
module RoundRobin {

  const NUMCLIENTS: nat := 26

  /** For every client, whether visiting it in this phase costs a system call. When sending:
      it is connected, and the send took bytes or would block. In network maintenance: always. */
  type Costs = c: seq<bool> | |c| == NUMCLIENTS witness seq(NUMCLIENTS, _ => true)

  /** Where a phase that has come to index id stops: behind the next costly client. */
  function Stop(id: nat, costs: Costs): (stop: nat)
    requires id <= NUMCLIENTS
    ensures id <= stop <= NUMCLIENTS
    ensures id < NUMCLIENTS ==> id < stop
    ensures id < stop ==> stop == NUMCLIENTS || costs[stop - 1]
    ensures forall c :: id <= c < stop - 1 ==> !costs[c]
    decreases NUMCLIENTS - id
  {
    if id == NUMCLIENTS then id else if costs[id] then id + 1 else Stop(id + 1, costs)
  }

  /** An index at the end starts over. */
  function Begin(id: nat): nat { if id == NUMCLIENTS then 0 else id }

  function Range(from: nat, to: nat): seq<nat>
    requires from <= to
  {
    seq(to - from, k requires 0 <= k < to - from => from + k)
  }

  lemma RangeSnoc(from: nat, to: nat)
    requires from <= to
    ensures Range(from, to) + [to] == Range(from, to + 1)
  {
  }

  /** The loop of one phase, with SYSCALLS_PER_LOOP equal to 1: returns the next value of the
      static index and the clients visited. */
  method Phase(id0: nat, costs: Costs) returns (id: nat, visited: seq<nat>)
    requires id0 <= NUMCLIENTS
    ensures id == Stop(Begin(id0), costs)
    ensures visited == Range(Begin(id0), id) && visited != []
    ensures Begin(id0) < id <= NUMCLIENTS && (id == NUMCLIENTS || costs[id - 1])
    ensures forall c :: Begin(id0) <= c < id - 1 ==> !costs[c]
  {
    id := id0;
    if id == NUMCLIENTS {
      id := 0;
    }
    var sysCalls := 0;
    visited := [];
    while id < NUMCLIENTS && sysCalls < 1
      invariant Begin(id0) <= id <= NUMCLIENTS && sysCalls <= 1
      invariant visited == Range(Begin(id0), id)
      invariant sysCalls == 0 ==> Stop(id, costs) == Stop(Begin(id0), costs)
      invariant sysCalls > 0 ==> id == Stop(Begin(id0), costs)
      decreases NUMCLIENTS - id, 1 - sysCalls
    {
      RangeSnoc(Begin(id0), id);
      visited := visited + [id];
      if costs[id] {
        sysCalls := sysCalls + 1;
      }
      id := id + 1;
    }
  }

  /** The clients visited in a run of phases, and the index after it. */
  function Index(id: nat, phases: seq<Costs>): (next: nat)
    requires id <= NUMCLIENTS
    ensures next <= NUMCLIENTS
  {
    if phases == [] then id else Stop(Begin(Index(id, phases[..|phases| - 1])), phases[|phases| - 1])
  }

  function Tour(id: nat, phases: seq<Costs>): seq<nat>
    requires id <= NUMCLIENTS
  {
    if phases == [] then []
    else
      Tour(id, phases[..|phases| - 1])
      + Range(Begin(Index(id, phases[..|phases| - 1])), Index(id, phases))
  }

  /** Clients in cyclic order, from this one on. */
  predicate Cyclic(begin: nat, tour: seq<nat>) {
    forall k :: 0 <= k < |tour| ==> tour[k] == (begin + k) % NUMCLIENTS
  }

  lemma GoesOn(begin: nat, count: nat, j: nat)
    requires (begin + count) % NUMCLIENTS + j <= NUMCLIENTS
    ensures (begin + (count + j)) % NUMCLIENTS == Begin((begin + count) % NUMCLIENTS + j)
  {
  }

  lemma PhaseGoesOn(begin: nat, tour: seq<nat>, start: nat, stop: nat)
    requires Cyclic(begin, tour)
    requires start == (begin + |tour|) % NUMCLIENTS && start <= stop <= NUMCLIENTS
    ensures
      var more := tour + Range(start, stop);
      && Cyclic(begin, more)
      && Begin(stop) == (begin + |more|) % NUMCLIENTS
  {
    var more := tour + Range(start, stop);
    GoesOn(begin, |tour|, stop - start);
    forall k | |tour| <= k < |more| ensures more[k] == (begin + k) % NUMCLIENTS {
      GoesOn(begin, |tour|, k - |tour|);
    }
  }

  /** Clients follow each other in cyclic order, without a gap from one phase to the next, and
      every phase visits at least one. */
  lemma {:induction false} TourIsCyclic(id: nat, phases: seq<Costs>)
    requires id <= NUMCLIENTS
    ensures
      var tour := Tour(id, phases);
      && |tour| >= |phases|
      && Cyclic(Begin(id), tour)
      && Begin(Index(id, phases)) == (Begin(id) + |tour|) % NUMCLIENTS
  {
    if phases != [] {
      var front := phases[..|phases| - 1];
      TourIsCyclic(id, front);
      PhaseGoesOn(Begin(id), Tour(id, front), Begin(Index(id, front)), Index(id, phases));
    }
  }

  /** In any 26 consecutive phases every client is visited, whatever each send returns. */
  lemma EveryClientIsVisited(id: nat, phases: seq<Costs>, client: nat)
    requires id <= NUMCLIENTS && |phases| >= NUMCLIENTS && client < NUMCLIENTS
    ensures client in Tour(id, phases)
  {
    TourIsCyclic(id, phases);
    var begin := Begin(id);
    var k := if begin <= client then client - begin else client + NUMCLIENTS - begin;
    assert Tour(id, phases)[k] == client;
  }

  predicate AlwaysCosts(costs: Costs) {
    forall c :: 0 <= c < NUMCLIENTS ==> costs[c]
  }

  /** In network maintenance every visit costs a system call, so each phase visits exactly one
      client and 26 phases visit each exactly once. */
  lemma {:induction false} MaintenanceVisitsOneClient(id: nat, phases: seq<Costs>)
    requires id <= NUMCLIENTS
    requires forall k :: 0 <= k < |phases| ==> AlwaysCosts(phases[k])
    ensures |Tour(id, phases)| == |phases|
  {
    if phases != [] {
      var front := phases[..|phases| - 1];
      MaintenanceVisitsOneClient(id, front);
      assert AlwaysCosts(phases[|phases| - 1]);
    }
  }
}
