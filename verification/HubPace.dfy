/** How fast both halves of cores/axi_hub.v are for a master that never makes them wait: a beat
    in every cycle, and everything accepted is done in the end. */
module HubPace {
  import opened Handshake
  import HubRead
  import HubWrite
  import Runs

  function Min(a: nat, b: nat): nat { if a < b then a else b }

  // ------------------------------------------------------------------- reading

  ghost function Reading(rams: HubRead.Rams, ar: HubRead.Ar, ins: seq<HubRead.In>): HubRead.State {
    Runs.Run(HubRead.Step, HubRead.Init(rams, ar), ins)
  }

  /** The master takes every beat, and makes a request or makes none. */
  predicate TakesRead(i: HubRead.In, request: bool) { i.resetn && i.rReady && i.arValid == request }

  predicate AllTakeRead(ins: seq<HubRead.In>, request: bool) {
    forall k :: 0 <= k < |ins| ==> TakesRead(ins[k], request)
  }

  /** A request is waiting exactly when not all beats asked for have been served. */
  lemma Unserved(s: HubRead.State)
    requires HubRead.Inv(s)
    ensures |s.served| <= |HubRead.Expand(s.accepted)|
    ensures |s.served| == |HubRead.Expand(s.accepted)| <==> s.regs.ar.Held() == []
  {
    var held, ar := s.regs.ar.Held(), s.regs.ar.OutData();
    HubRead.ServedIsPrefix(s);
    assert |HubRead.Beats(s.served)| == |s.served|;
    if held != [] {
      HubRead.ExpandAppend(s.taken, held);
      assert held == [ar] + held[1..];
      HubRead.PartialIsPrefix(ar, held[1..], ar.len + 1);
    }
  }

  /** In each such cycle the beat in the R stage leaves, and the next one enters. */
  lemma ReadStep(s: HubRead.State, i: HubRead.In, request: bool)
    requires HubRead.Inv(s) && TakesRead(i, request)
    ensures
      var t := HubRead.Step(s, i);
      && |t.replies| == |s.served|
      && |t.served| == |s.served| + (if s.regs.ar.Held() == [] then 0 else 1)
      && (request ==> t.regs.ar.Held() != [])
      && (!request ==> t.accepted == s.accepted)
  {
    InoutIsQueue(s.regs.ar, i.ar, i.arValid, s.regs.ArReady(i.rReady));
  }

  lemma {:induction false} Draining(s: HubRead.State, quiet: seq<HubRead.In>)
    requires HubRead.Inv(s) && AllTakeRead(quiet, false)
    ensures
      var t, all := Runs.Run(HubRead.Step, s, quiet), |HubRead.Expand(s.accepted)|;
      && HubRead.Inv(t) && t.accepted == s.accepted
      && |t.served| == Min(|s.served| + |quiet|, all)
      && (quiet != [] ==> |t.replies| == Min(|s.served| + |quiet| - 1, all))
  {
    Unserved(s);
    if quiet != [] {
      var front, i := quiet[..|quiet| - 1], quiet[|quiet| - 1];
      Draining(s, front);
      var t := Runs.Run(HubRead.Step, s, front);
      Unserved(t);
      ReadStep(t, i, false);
      HubRead.StepKeeps(t, i);
    }
  }

  lemma Drained(t: HubRead.State)
    requires HubRead.Inv(t) && |t.replies| == |HubRead.Expand(t.accepted)|
    ensures t.regs.ar.Held() == [] && !t.regs.r.valid
  {
    Unserved(t);
  }

  /** Once the master makes no more requests, a beat is served in every cycle until all beats
      asked for have been, and answered in the next; so all are answered one cycle after as many
      cycles as there are beats left. */
  lemma ReadsDrain(rams: HubRead.Rams, ar: HubRead.Ar, ins: seq<HubRead.In>, quiet: seq<HubRead.In>)
    requires rams.Fits() && AllTakeRead(quiet, false)
    ensures
      var s, t := Reading(rams, ar, ins), Reading(rams, ar, ins + quiet);
      var all := |HubRead.Expand(s.accepted)|;
      && t.accepted == s.accepted
      && |t.served| == Min(|s.served| + |quiet|, all)
      && (quiet != [] ==> |t.replies| == Min(|s.served| + |quiet| - 1, all))
      && (|quiet| > all - |s.served| ==>
            |t.replies| == all && t.regs.ar.Held() == [] && !t.regs.r.valid)
  {
    HubRead.Reachable(rams, ar, ins);
    Runs.RunAppend(HubRead.Step, HubRead.Init(rams, ar), ins, quiet);
    Draining(Reading(rams, ar, ins), quiet);
    var s := Reading(rams, ar, ins);
    if |quiet| > |HubRead.Expand(s.accepted)| - |s.served| {
      Unserved(s);
      Drained(Reading(rams, ar, ins + quiet));
    }
  }

  lemma {:induction false} Streaming(s: HubRead.State, busy: seq<HubRead.In>)
    requires HubRead.Inv(s) && AllTakeRead(busy, true) && busy != []
    ensures
      var t, idle := Runs.Run(HubRead.Step, s, busy), if s.regs.ar.Held() == [] then 1 else 0;
      && HubRead.Inv(t) && t.regs.ar.Held() != []
      && |t.served| == |s.served| + |busy| - idle
      && |t.replies| == |s.served| + (if |busy| == 1 then 0 else |busy| - 1 - idle)
  {
    var front, i := busy[..|busy| - 1], busy[|busy| - 1];
    if front == [] {
      assert Runs.Run(HubRead.Step, s, front) == s;
    } else {
      Streaming(s, front);
    }
    var t := Runs.Run(HubRead.Step, s, front);
    ReadStep(t, i, true);
    HubRead.StepKeeps(t, i);
  }

  /** As long as there is always a next request, a beat is served in every cycle and answered in
      the next, however short the bursts: from reset on, n cycles serve n - 1 beats and answer
      n - 2. */
  lemma ReadsStream(rams: HubRead.Rams, ar: HubRead.Ar, busy: seq<HubRead.In>)
    requires rams.Fits() && AllTakeRead(busy, true) && |busy| >= 2
    ensures
      var t := Reading(rams, ar, busy);
      |t.served| == |busy| - 1 && |t.replies| == |busy| - 2
  {
    HubRead.Reachable(rams, ar, []);
    Streaming(HubRead.Init(rams, ar), busy);
  }

  // ------------------------------------------------------------------- writing

  ghost function Writing(size: nat, aw: HubWrite.Aw, beat: HubWrite.Beat, ins: seq<HubWrite.In>): HubWrite.State {
    Runs.Run(HubWrite.Step, HubWrite.Init(size, aw, beat), ins)
  }

  /** The master takes every response, and offers both an address and a beat or neither. */
  predicate TakesResponse(i: HubWrite.In, offers: bool) {
    i.resetn && i.bReady && i.awValid == offers && i.wValid == offers
  }

  predicate AllTakeResponse(ins: seq<HubWrite.In>, offers: bool) {
    forall k :: 0 <= k < |ins| ==> TakesResponse(ins[k], offers)
  }

  /** Nothing to take: an address or a beat is missing. */
  predicate Idle(s: HubWrite.State) { s.regs.aw.Held() == [] || s.regs.w.Held() == [] }

  lemma WriteStep(s: HubWrite.State, i: HubWrite.In, offers: bool)
    requires HubWrite.Inv(s) && TakesResponse(i, offers)
    ensures
      var t := HubWrite.Step(s, i);
      && |t.taken| == |s.taken| + (if Idle(s) then 0 else 1)
      && (Idle(s) ==> !t.regs.b.valid)
      && (offers ==> !Idle(t))
      && (!offers ==>
            && t.accepted == s.accepted && t.awAccepted == s.awAccepted
            && (Idle(s) ==> Idle(t)) && (Idle(s) || |t.regs.w.Held()| < |s.regs.w.Held()|))
  {
    InoutIsQueue(s.regs.aw, i.aw, i.awValid, s.regs.AwReady(i.bReady));
    InoutIsQueue(s.regs.w, i.beat, i.wValid, s.regs.WReady(i.bReady));
  }

  lemma {:induction false} WriteStreaming(s: HubWrite.State, busy: seq<HubWrite.In>)
    requires HubWrite.Inv(s) && AllTakeResponse(busy, true) && busy != []
    ensures
      var t := Runs.Run(HubWrite.Step, s, busy);
      && HubWrite.Inv(t) && !Idle(t)
      && |t.taken| == |s.taken| + |busy| - (if Idle(s) then 1 else 0)
  {
    var front, i := busy[..|busy| - 1], busy[|busy| - 1];
    if front == [] {
      assert Runs.Run(HubWrite.Step, s, front) == s;
    } else {
      WriteStreaming(s, front);
    }
    var t := Runs.Run(HubWrite.Step, s, front);
    WriteStep(t, i, true);
    HubWrite.StepKeeps(t, i);
  }

  /** As long as addresses and beats keep coming, n cycles from reset on take n - 1 beats. */
  lemma WritesStream(size: nat, aw: HubWrite.Aw, beat: HubWrite.Beat, busy: seq<HubWrite.In>)
    requires AllTakeResponse(busy, true) && busy != []
    ensures |Writing(size, aw, beat, busy).taken| == |busy| - 1
  {
    HubWrite.Reachable(size, aw, beat, []);
    WriteStreaming(HubWrite.Init(size, aw, beat), busy);
  }

  lemma {:induction false} WriteDraining(s: HubWrite.State, quiet: seq<HubWrite.In>)
    requires HubWrite.Inv(s) && AllTakeResponse(quiet, false)
    ensures
      var t := Runs.Run(HubWrite.Step, s, quiet);
      && HubWrite.Inv(t) && t.accepted == s.accepted && t.awAccepted == s.awAccepted
      && (Idle(t) || |t.regs.w.Held()| + |quiet| <= 2)
      && (|quiet| >= 3 ==> !t.regs.b.valid)
  {
    if quiet == [] {
      InoutIsQueue(s.regs.w, s.regs.w.OutData(), false, false);
    } else {
      var front, i := quiet[..|quiet| - 1], quiet[|quiet| - 1];
      WriteDraining(s, front);
      var t := Runs.Run(HubWrite.Step, s, front);
      WriteStep(t, i, false);
      HubWrite.StepKeeps(t, i);
    }
  }

  lemma {:induction false} LastsOfPrefix(beats: seq<HubWrite.Beat>, n: nat)
    requires n <= |beats|
    ensures HubWrite.Lasts(beats[..n]) <= HubWrite.Lasts(beats)
  {
    if n == |beats| {
      assert beats[..n] == beats;
    } else {
      LastsOfPrefix(beats[..|beats| - 1], n);
      assert beats[..|beats| - 1][..n] == beats[..n];
    }
  }

  /** An idle write half has answered every burst it has both the address and the last beat of. */
  lemma IdleIsDone(s: HubWrite.State)
    requires HubWrite.Inv(s) && Idle(s) && !s.regs.b.valid
    ensures |s.answered| == Min(HubWrite.Lasts(s.accepted), |s.awAccepted|)
  {
    HubWrite.Responses(s);
    LastsOfPrefix(s.accepted, |s.taken|);
    assert s.accepted[..|s.taken|] == s.taken;
  }

  /** Three cycles after the master has offered its last address and beat, exactly the bursts
      with both an address and a last beat are answered. */
  lemma WritesDrain(size: nat, aw: HubWrite.Aw, beat: HubWrite.Beat, ins: seq<HubWrite.In>, quiet: seq<HubWrite.In>)
    requires AllTakeResponse(quiet, false) && |quiet| >= 3
    ensures
      var s, t := Writing(size, aw, beat, ins), Writing(size, aw, beat, ins + quiet);
      && t.accepted == s.accepted && t.awAccepted == s.awAccepted
      && |t.answered| == Min(HubWrite.Lasts(s.accepted), |s.awAccepted|)
  {
    HubWrite.Reachable(size, aw, beat, ins);
    Runs.RunAppend(HubWrite.Step, HubWrite.Init(size, aw, beat), ins, quiet);
    WriteDraining(Writing(size, aw, beat, ins), quiet);
    IdleIsDone(Writing(size, aw, beat, ins + quiet));
  }
}
