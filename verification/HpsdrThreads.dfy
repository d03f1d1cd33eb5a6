/** The start/stop handshake of projects/sdr_receiver_hpsdr/server/sdr-receiver-hpsdr.c: main
    and its EP6 handlers share enable_thread and active_thread, and run in any interleaving. */
module HpsdrThreads {
  import Runs

  /** Where main is: waiting for a packet, or inside a Stop or a Start command. */
  datatype Main =
    | Receiving
    | Disabling(start: bool)
    | Awaiting(start: bool)
    | Addressing
    | Enabling
    | Activating
    | Creating
    | Dead

  /** Where a handler is: testing enable_thread, in a pass of its loop, or behind the loop with
      active_thread still to clear. It is gone once it has cleared the flag. */
  datatype Handler = Testing | Passing | Leaving

  /** `created` counts the threads ever created and names the next one; `barren` remembers a
      pthread_create that failed without main noticing. */
  datatype State = State(main: Main, enable: bool, active: bool, live: map<nat, Handler>, created: nat, barren: bool)

  const INIT: State := State(Receiving, false, false, map[], 0, false)

  /** What pthread_create makes of a call: main takes only a negative result for a failure. */
  datatype Outcome = Created | NegativeError | PositiveError

  /** The next step: a Start, Stop or other packet arrives, main goes on, or a handler does. */
  datatype Event = Start | Stop | Other | Main(outcome: Outcome) | Handler(id: nat)

  /** Main's step inside a command. */
  function MainNext(s: State, outcome: Outcome): State {
    match s.main
    case Receiving => s
    case Disabling(start) => s.(enable := false, main := Awaiting(start))
    case Awaiting(start) => if s.active then s else s.(main := if start then Addressing else Receiving)
    case Addressing => s.(main := Enabling)
    case Enabling => s.(enable := true, main := Activating)
    case Activating => s.(active := true, main := Creating)
    case Creating =>
      (match outcome
       case Created => s.(live := s.live[s.created := Testing], created := s.created + 1, main := Receiving)
       case NegativeError => s.(live := map[], main := Dead)
       case PositiveError => s.(barren := true, main := Receiving))
    case Dead => s
  }

  function HandlerNext(s: State, id: nat): State
    requires id in s.live
  {
    match s.live[id]
    case Testing => s.(live := s.live[id := if s.enable then Passing else Leaving])
    case Passing => s.(live := s.live[id := Testing])
    case Leaving => s.(active := false, live := s.live - {id})
  }

  function Next(s: State, e: Event): State {
    match e
    case Start => if s.main.Receiving? then s.(main := Disabling(true)) else s
    case Stop => if s.main.Receiving? then s.(main := Disabling(false)) else s
    case Other => s
    case Main(outcome) => MainNext(s, outcome)
    case Handler(id) => if id in s.live then HandlerNext(s, id) else s
  }

  /** What a Discovery packet is answered: whether active_thread is set. */
  function DiscoveryReply(s: State): nat { if s.active then 3 else 2 }

  // ---------------------------------------------------------------- the invariant

  /** Main is past the wait of a Start and has not yet created the handler. */
  predicate Starting(s: State) {
    s.main.Addressing? || s.main.Enabling? || s.main.Activating? || s.main.Creating?
  }

  ghost predicate Inv(s: State) {
    && (forall i, j :: i in s.live && j in s.live ==> i == j)
    && (forall i :: i in s.live ==> i < s.created && s.active && !s.barren && !Starting(s))
    && (s.main.Creating? ==> s.active)
    && (s.main.Addressing? || s.main.Enabling? || s.main.Activating? ==> !s.active)
    && (s.barren ==> s.active && !Starting(s))
    && (s.main.Receiving? || s.main.Disabling? || s.main.Awaiting? ==> (s.active <==> s.live != map[] || s.barren))
    && (s.main.Awaiting? || s.main.Addressing? || s.main.Enabling? ==> !s.enable)
    && (s.main.Dead? ==> s.live == map[])
  }

  lemma MainKeeps(s: State, outcome: Outcome)
    requires Inv(s)
    ensures Inv(MainNext(s, outcome))
  {
    if s.main.Creating? && outcome.Created? {
      assert s.created in MainNext(s, outcome).live;
    }
  }

  lemma HandlerKeeps(s: State, id: nat)
    requires Inv(s) && id in s.live
    ensures Inv(HandlerNext(s, id))
  {
    var s' := HandlerNext(s, id);
    if s.live[id].Leaving? {
      assert forall i :: i !in s'.live;
    } else {
      assert id in s'.live;
    }
  }

  lemma StepKeeps(s: State, e: Event)
    requires Inv(s)
    ensures Inv(Next(s, e))
  {
    match e
    case Main(outcome) => MainKeeps(s, outcome);
    case Handler(id) => if id in s.live { HandlerKeeps(s, id); }
    case _ =>
  }

  lemma {:induction false} Reachable(events: seq<Event>)
    ensures Inv(Runs.Run(Next, INIT, events))
  {
    if events != [] {
      var front := events[..|events| - 1];
      Reachable(front);
      StepKeeps(Runs.Run(Next, INIT, front), events[|events| - 1]);
    }
  }

  // ---------------------------------------------------------------- what it is for

  ghost function After(events: seq<Event>): State { Runs.Run(Next, INIT, events) }

  /** In every interleaving at most one handler is live, and none while main changes the
      address it sends to or creates the next one. */
  lemma AtMostOneHandler(events: seq<Event>, i: nat, j: nat)
    requires i in After(events).live && j in After(events).live
    ensures i == j && !Starting(After(events))
  {
    Reachable(events);
  }

  predicate Stopped(s: State) {
    && s.live == map[]
    && (s.main.Receiving? || (s.main.Disabling? && !s.main.start) || (s.main.Awaiting? && !s.main.start))
  }

  lemma {:induction false} StaysStopped(s: State, later: seq<Event>)
    requires Stopped(s) && forall k :: 0 <= k < |later| ==> !later[k].Start?
    ensures Stopped(Runs.Run(Next, s, later))
  {
    if later != [] {
      StaysStopped(s, later[..|later| - 1]);
    }
  }

  /** When a Stop command completes no handler is live, and none will be until the next Start
      gets to creating one. */
  lemma NoneLiveAfterStop(events: seq<Event>, outcome: Outcome, later: seq<Event>)
    requires After(events).main == Awaiting(false)
    requires MainNext(After(events), outcome).main == Receiving
    requires forall k :: 0 <= k < |later| ==> !later[k].Start?
    ensures After(events + [Main(outcome)] + later).live == map[]
  {
    Reachable(events);
    var s := After(events + [Main(outcome)]);
    assert (events + [Main(outcome)])[..|events|] == events;
    assert s == MainNext(After(events), outcome);
    Runs.RunAppend(Next, INIT, events + [Main(outcome)], later);
    StaysStopped(s, later);
  }

  /** Event k makes pthread_create fail with a positive error number. */
  ghost predicate CreateFails(events: seq<Event>, k: nat) {
    k < |events| && events[k] == Main(PositiveError) && After(events[..k]).main == Creating
  }

  ghost predicate CreateFailed(events: seq<Event>) { exists k: nat :: CreateFails(events, k) }

  lemma AfterOneMore(events: seq<Event>, e: Event)
    ensures After(events + [e]) == Next(After(events), e)
  {
    assert (events + [e])[..|events|] == events;
  }

  lemma FailureStays(events: seq<Event>, later: seq<Event>, k: nat)
    requires k < |events|
    ensures CreateFails(events + later, k) <==> CreateFails(events, k)
  {
    assert (events + later)[..k] == events[..k];
  }

  lemma FailedOneMore(events: seq<Event>, e: Event)
    ensures CreateFailed(events + [e])
       <==> CreateFailed(events) || (e == Main(PositiveError) && After(events).main == Creating)
  {
    assert (events + [e])[..|events|] == events;
    if CreateFailed(events + [e]) {
      var k: nat :| CreateFails(events + [e], k);
      if k < |events| {
        FailureStays(events, [e], k);
      }
    }
    if CreateFailed(events) {
      var k: nat :| CreateFails(events, k);
      FailureStays(events, [e], k);
    }
    assert CreateFails(events + [e], |events|) <==> e == Main(PositiveError) && After(events).main == Creating;
  }

  lemma {:induction false} BarrenMeans(events: seq<Event>)
    ensures After(events).barren <==> CreateFailed(events)
  {
    if events != [] {
      var front, e := events[..|events| - 1], events[|events| - 1];
      BarrenMeans(front);
      FailedOneMore(front, e);
      assert events == front + [e];
    }
  }

  /** It takes one Start command and one failure. */
  lemma FailureHappens()
    ensures CreateFailed([Start, Main(Created), Main(Created), Main(Created), Main(Created), Main(Created),
                          Main(PositiveError)])
  {
    var m := Main(Created);
    AfterOneMore([], Start);
    AfterOneMore([] + [Start], m);
    AfterOneMore([] + [Start] + [m], m);
    AfterOneMore([] + [Start] + [m] + [m], m);
    AfterOneMore([] + [Start] + [m] + [m] + [m], m);
    AfterOneMore([] + [Start] + [m] + [m] + [m] + [m], m);
    var es := [Start, m, m, m, m, m, Main(PositiveError)];
    assert es[..6] == [] + [Start] + [m] + [m] + [m] + [m] + [m];
    assert CreateFails(es, 6);
  }

  /** Outside a Start command the Discovery reply says "busy" exactly when a handler is live,
      if and only if no earlier pthread_create failed with a positive error number. */
  lemma DiscoveryTellsTheTruth(events: seq<Event>)
    requires After(events).main.Receiving?
    ensures
      var s := After(events);
      (DiscoveryReply(s) == 3 <==> s.live != map[]) <==> !CreateFailed(events)
  {
    Reachable(events);
    BarrenMeans(events);
  }

  /** How many of its own steps a handler needs, once disabled, to clear active_thread. */
  ghost function Rank(s: State): (r: nat)
    ensures r <= 3
  {
    if s.live == map[] then 0
    else
      var id :| id in s.live;
      match s.live[id]
      case Passing => 3
      case Testing => 2
      case Leaving => 1
  }

  predicate Waiting(s: State) { s.main.Awaiting? && s.active }

  /** Every step of the handler brings the end of the wait closer, no step takes it back, and
      when the handler has no step left the wait is over. */
  lemma WaitProgresses(s: State, e: Event)
    requires Inv(s) && Waiting(s) && !s.barren
    ensures Rank(s) > 0
    ensures var s' := Next(s, e);
      if e.Handler? && e.id in s.live then Rank(s') < Rank(s) && (Waiting(s') <==> Rank(s') > 0)
      else s' == s
  {
    var id :| id in s.live;
    assert forall i :: i in s.live ==> i == id;
    if e.Handler? && e.id in s.live {
      var s' := Next(s, e);
      HandlerKeeps(s, id);
      if s.live[id].Leaving? {
        assert forall i :: i !in s'.live;
      } else {
        assert id in s'.live;
        assert forall i :: i in s'.live ==> i == id;
      }
    }
  }

  /** The steps handler id takes. */
  function Steps(later: seq<Event>, id: nat): nat {
    if later == [] then 0
    else Steps(later[..|later| - 1], id) + if later[|later| - 1] == Handler(id) then 1 else 0
  }

  /** The wait of s is over at some point of what follows. */
  ghost predicate WaitEnds(s: State, later: seq<Event>) {
    exists k :: 0 <= k <= |later| && !Waiting(Runs.Run(Next, s, later[..k]))
  }

  lemma {:induction false} RankFalls(s: State, later: seq<Event>, id: nat)
    requires Inv(s) && Waiting(s) && !s.barren && id in s.live
    ensures
      var t := Runs.Run(Next, s, later);
      WaitEnds(s, later)
      || (Inv(t) && Waiting(t) && !t.barren && id in t.live && Rank(t) + Steps(later, id) <= Rank(s))
  {
    if later != [] {
      var front, e := later[..|later| - 1], later[|later| - 1];
      RankFalls(s, front, id);
      if WaitEnds(s, front) {
        var k :| 0 <= k <= |front| && !Waiting(Runs.Run(Next, s, front[..k]));
        assert later[..k] == front[..k];
      } else {
        var t := Runs.Run(Next, s, front);
        WaitProgresses(t, e);
        StepKeeps(t, e);
        assert later[..|later|] == later;
      }
    }
  }

  /** If no pthread_create failed, a Stop or Start that waits for the handler gets on after at
      most three steps of that handler, however many others come in between. */
  lemma WaitIsOver(events: seq<Event>, later: seq<Event>, id: nat)
    requires Waiting(After(events)) && !CreateFailed(events)
    requires id in After(events).live && Steps(later, id) >= 3
    ensures WaitEnds(After(events), later)
  {
    Reachable(events);
    BarrenMeans(events);
    RankFalls(After(events), later, id);
    if !WaitEnds(After(events), later) {
      WaitProgresses(Runs.Run(Next, After(events), later), Other);
    }
  }

  predicate Busy(m: Main) { m.Disabling? || m.Awaiting? }

  lemma {:induction false} StaysStuck(s: State, later: seq<Event>)
    requires Inv(s) && s.barren
    ensures var t := Runs.Run(Next, s, later);
      Inv(t) && t.barren && t.active && t.live == map[] && (Busy(s.main) ==> Busy(t.main))
  {
    if later != [] {
      var front := later[..|later| - 1];
      StaysStuck(s, front);
      StepKeeps(Runs.Run(Next, s, front), later[|later| - 1]);
    }
  }

  /** After such a failure, though, active_thread stays set for ever with nobody left to clear
      it, and a Start or Stop command that begins never completes. */
  lemma StuckAfterFailedCreate(events: seq<Event>, later: seq<Event>)
    requires CreateFailed(events)
    ensures
      var s, t := After(events), After(events + later);
      t.active && t.live == map[] && (Busy(s.main) ==> Busy(t.main))
  {
    Reachable(events);
    BarrenMeans(events);
    Runs.RunAppend(Next, INIT, events, later);
    StaysStuck(After(events), later);
  }

  // ---------------------------------------------------------------- what a Start is for

  /** Handler `id` is the one that is live, enabled and in its loop. */
  predicate Running(s: State, id: nat) {
    s.enable && s.active && id in s.live && !s.live[id].Leaving? && s.live == map[id := s.live[id]]
  }

  lemma NoneWhileFree(s: State)
    requires Inv(s) && !s.active
    ensures s.live == map[]
  {
    assert forall i :: i !in s.live;
  }

  /** Once the wait of a Start is over, five steps of main create the handler and enable it. */
  lemma StartCompletes(events: seq<Event>, o: Outcome)
    requires After(events).main == Awaiting(true) && !After(events).active
    ensures
      var s, t := After(events), After(events + [Main(o)] + [Main(o)] + [Main(o)] + [Main(o)] + [Main(Created)]);
      t.main.Receiving? && Running(t, s.created) && t.live[s.created].Testing? && t.created == s.created + 1
  {
    Reachable(events);
    var e1 := events + [Main(o)];
    var e2 := e1 + [Main(o)];
    var e3 := e2 + [Main(o)];
    var e4 := e3 + [Main(o)];
    AfterOneMore(events, Main(o));
    AfterOneMore(e1, Main(o));
    AfterOneMore(e2, Main(o));
    AfterOneMore(e3, Main(o));
    AfterOneMore(e4, Main(Created));
    NoneWhileFree(After(events));
  }

  lemma OneRunning(s: State, e: Event, id: nat)
    requires s.main.Receiving? && Running(s, id) && !e.Start? && !e.Stop?
    ensures
      var t := Next(s, e);
      && t.main.Receiving? && Running(t, id)
      && (t.live[id].Passing? <==> (s.live[id].Passing? <==> e != Handler(id)))
  {
  }

  lemma {:induction false} StaysRunning(s: State, later: seq<Event>, id: nat)
    requires Inv(s) && s.main.Receiving? && Running(s, id)
    requires forall k :: 0 <= k < |later| ==> !later[k].Start? && !later[k].Stop?
    ensures
      var t := Runs.Run(Next, s, later);
      && t.main.Receiving? && Running(t, id)
      && (t.live[id].Passing? <==> (s.live[id].Passing? <==> Steps(later, id) % 2 == 0))
  {
    if later != [] {
      var front := later[..|later| - 1];
      StaysRunning(s, front, id);
      OneRunning(Runs.Run(Next, s, front), later[|later| - 1], id);
    }
  }

  /** Until the next command the handler goes round its loop: with every other of its steps it is
      in a pass, whatever else happens. */
  lemma HandlerKeepsPassing(events: seq<Event>, later: seq<Event>, id: nat)
    requires After(events).main.Receiving? && Running(After(events), id)
    requires forall k :: 0 <= k < |later| ==> !later[k].Start? && !later[k].Stop?
    ensures
      var s, t := After(events), After(events + later);
      && Running(t, id)
      && (t.live[id].Passing? <==> (s.live[id].Passing? <==> Steps(later, id) % 2 == 0))
  {
    Reachable(events);
    Runs.RunAppend(Next, INIT, events, later);
    StaysRunning(After(events), later, id);
  }
}
