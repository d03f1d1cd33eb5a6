/** Who owns which slot of sock_thread in projects/sdr_transceiver_wide/server/sdr-transceiver-wide.c:
    main and the handlers of the four roles, in any interleaving. */
module TransceiverSlots {
  import Runs

  const ROLES: nat := 4

  /** Where main is, with the socket it has in hand and the connection that socket stands for. */
  datatype Main =
    | Accepting
    | Receiving(fd: nat, conn: nat)
    | Rejecting(fd: nat, conn: nat)
    | Claiming(fd: nat, conn: nat, role: nat)
    | Creating(conn: nat, role: nat)
    | Dead

  /** Where a handler is: before it reads its slot, in its loop, about to close, about to clear
      its slot. After that it is gone. */
  datatype Pc = Starting | Serving(fd: int) | Closing(fd: int) | Clearing

  /** A handler, and the connection it was created for. */
  datatype Thread = Thread(role: nat, conn: nat, pc: Pc)

  /** The sockets the process has open and the connections they stand for. For every connection
      accepted, the socket it came on and how often it was closed; and whether a close ever hit
      a socket that was not open. */
  datatype Files = Files(open: map<int, nat>, sock: seq<int>, closes: seq<nat>, stray: bool)

  /** Bookkeeping: who has a role - main, which is creating its handler, that handler, or nobody
      any more - and the connection of each role that has not been closed yet; and who has an
      open socket. */
  datatype Owner = Parent | Child(id: nat) | Nobody
  datatype Holder = Hand | Slot(role: nat)

  datatype State = State(main: Main, slots: seq<int>, files: Files, threads: map<nat, Thread>, created: nat,
                         owner: map<nat, Owner>, held: map<nat, nat>, holder: map<int, Holder>)

  const INIT: State :=
    State(Accepting, [-1, -1, -1, -1], Files(map[], [], [], false), map[], 0, map[], map[], map[])

  /** What pthread_create makes of a call: main takes only a negative result for a failure. */
  datatype Outcome = Created | NegativeError | PositiveError

  /** The next step: accept returns a socket that is not in use, or fails; the first four bytes
      of a connection arrive, or do not; main goes on; a handler goes on. */
  datatype Event =
    | Accept(fd: nat)
    | AcceptError
    | Command(result: int, command: nat)
    | Main(outcome: Outcome)
    | Handler(id: nat, done: bool)

  function Close(f: Files, fd: int): Files {
    if fd in f.open && f.open[fd] < |f.closes| then
      f.(open := f.open - {fd}, closes := f.closes[f.open[fd] := f.closes[f.open[fd]] + 1])
    else f.(stray := true)
  }

  function Open(f: Files, fd: int): Files {
    f.(open := f.open[fd := |f.sock|], sock := f.sock + [fd], closes := f.closes + [0])
  }

  function CommandNext(s: State, result: int, command: nat): State
    requires s.main.Receiving? && |s.slots| == ROLES
  {
    if result <= 0 || command > 3 || s.slots[command] > -1 then s.(main := Rejecting(s.main.fd, s.main.conn))
    else s.(main := Claiming(s.main.fd, s.main.conn, command))
  }

  function MainNext(s: State, outcome: Outcome): State
    requires |s.slots| == ROLES && ((s.main.Claiming? || s.main.Creating?) ==> s.main.role < ROLES)
  {
    match s.main
    case Rejecting(fd, conn) => s.(files := Close(s.files, fd), holder := s.holder - {fd}, main := Accepting)
    case Claiming(fd, conn, role) =>
      s.(slots := s.slots[role := fd], owner := s.owner[role := Parent], held := s.held[role := conn],
         holder := s.holder[fd := Slot(role)], main := Creating(conn, role))
    case Creating(conn, role) =>
      (match outcome
       case Created =>
         s.(threads := s.threads[s.created := Thread(role, conn, Starting)], created := s.created + 1,
            owner := s.owner[role := Child(s.created)], main := Accepting)
       case NegativeError => s.(threads := map[], main := Dead)
       case PositiveError => s.(owner := s.owner[role := Nobody], main := Accepting))
    case _ => s
  }

  function HandlerNext(s: State, id: nat, done: bool): State
    requires |s.slots| == ROLES && id in s.threads && s.threads[id].role < ROLES
  {
    var t := s.threads[id];
    match t.pc
    case Starting => s.(threads := s.threads[id := t.(pc := Serving(s.slots[t.role]))])
    case Serving(fd) => if done then s.(threads := s.threads[id := t.(pc := Closing(fd))]) else s
    case Closing(fd) =>
      s.(files := Close(s.files, fd), threads := s.threads[id := t.(pc := Clearing)], held := s.held - {t.role},
         holder := s.holder - {fd})
    case Clearing => s.(slots := s.slots[t.role := -1], threads := s.threads - {id}, owner := s.owner - {t.role})
  }

  predicate Sane(s: State) {
    && |s.slots| == ROLES
    && ((s.main.Claiming? || s.main.Creating?) ==> s.main.role < ROLES)
    && (forall i :: i in s.threads ==> s.threads[i].role < ROLES && i < s.created)
  }

  function Next(s: State, e: Event): State
    requires Sane(s)
  {
    match e
    case Accept(fd) =>
      if s.main.Accepting? && fd !in s.files.open then
        s.(files := Open(s.files, fd), holder := s.holder[fd := Hand], main := Receiving(fd, |s.files.sock|))
      else s
    case AcceptError => if s.main.Accepting? then s.(threads := map[], main := Dead) else s
    case Command(result, command) => if s.main.Receiving? then CommandNext(s, result, command) else s
    case Main(outcome) => MainNext(s, outcome)
    case Handler(id, done) => if id in s.threads then HandlerNext(s, id, done) else s
  }

  // ---------------------------------------------------------------- the invariant

  type Threads = map<nat, Thread>

  /** A slot is full exactly while its role has an owner; and a handler owns its role. */
  predicate Roles(main: Main, slots: seq<int>, threads: Threads, owner: map<nat, Owner>) {
    && |slots| == ROLES
    && (forall r :: r in owner ==> r < ROLES)
    && (forall r :: 0 <= r < ROLES ==> (slots[r] > -1 <==> r in owner))
    && (forall i :: i in threads ==> threads[i].role in owner && owner[threads[i].role] == Child(i))
    && (main.Creating? ==> main.role in owner && owner[main.role] == Parent)
    && (main.Claiming? ==> main.role !in owner)
  }

  /** And every owner is there, but for the handlers that could not be created. */
  predicate Owned(main: Main, threads: Threads, owner: map<nat, Owner>) {
    forall r :: r in owner ==>
      match owner[r]
      case Parent => main.Creating? && main.role == r
      case Child(id) => id in threads && threads[id].role == r
      case Nobody => true
  }

  predicate InHand(main: Main) { main.Receiving? || main.Rejecting? || main.Claiming? }

  /** A handler that has not closed its socket works on the one in its slot. */
  predicate Keeps(t: Thread, slots: seq<int>, held: map<nat, nat>) {
    if t.pc.Clearing? then t.role !in held
    else
      && t.role in held && held[t.role] == t.conn
      && (t.pc.Starting? || (t.role < |slots| && slots[t.role] == t.pc.fd))
  }

  /** A role holds its connection from the moment main fills its slot until its handler has
      closed the socket, and that is the connection the handler was created for. */
  predicate Holding(main: Main, slots: seq<int>, threads: Threads, owner: map<nat, Owner>, held: map<nat, nat>) {
    && (forall r :: r in held ==> r in owner)
    && (main.Creating? ==> main.role in held && held[main.role] == main.conn)
    && (forall r :: r in owner && !owner[r].Child? ==> r in held)
    && (forall i :: i in threads ==> Keeps(threads[i], slots, held))
  }

  /** The open sockets are the one main has in hand and those of the roles that hold one. */
  predicate Sockets(main: Main, slots: seq<int>, open: map<int, nat>, held: map<nat, nat>, holder: map<int, Holder>) {
    && holder.Keys == open.Keys
    && (forall r :: r in held ==>
          && r < |slots| && slots[r] in holder && holder[slots[r]] == Slot(r) && open[slots[r]] == held[r])
    && (InHand(main) ==> main.fd in holder && holder[main.fd] == Hand && open[main.fd] == main.conn)
  }

  predicate Backed(main: Main, slots: seq<int>, held: map<nat, nat>, holder: map<int, Holder>) {
    forall fd :: fd in holder ==>
      match holder[fd]
      case Hand => InHand(main) && main.fd == fd
      case Slot(r) => r in held && r < |slots| && slots[r] == fd
  }

  /** Every connection accepted is either open, on its own socket, or closed, once. */
  predicate Accounted(f: Files) {
    && !f.stray && |f.sock| == |f.closes|
    && (forall fd :: fd in f.open ==> f.open[fd] < |f.sock| && f.sock[f.open[fd]] == fd && f.closes[f.open[fd]] == 0)
    && (forall c :: 0 <= c < |f.sock| ==>
          f.closes[c] == 1 || (f.closes[c] == 0 && f.sock[c] in f.open && f.open[f.sock[c]] == c))
  }

  predicate Inv(s: State) {
    && Sane(s)
    && Roles(s.main, s.slots, s.threads, s.owner)
    && Holding(s.main, s.slots, s.threads, s.owner, s.held)
    && Sockets(s.main, s.slots, s.files.open, s.held, s.holder)
    && Accounted(s.files)
    && (if s.main.Dead? then s.threads == map[]
        else Owned(s.main, s.threads, s.owner) && Backed(s.main, s.slots, s.held, s.holder))
  }

  lemma CloseKeepsAccount(f: Files, fd: int)
    requires Accounted(f) && fd in f.open
    ensures Accounted(Close(f, fd)) && Close(f, fd).open == f.open - {fd}
  {
  }

  lemma OpenKeepsAccount(f: Files, fd: int)
    requires Accounted(f) && fd !in f.open
    ensures Accounted(Open(f, fd)) && Open(f, fd).open == f.open[fd := |f.sock|]
  {
  }

  // Each event on the parts of the state it changes.

  lemma MainMoves(main: Main, next: Main, slots: seq<int>, threads: Threads, owner: map<nat, Owner>,
                  held: map<nat, nat>)
    requires !main.Creating? && !next.Creating? && (next.Claiming? ==> next.role !in owner)
    requires Roles(main, slots, threads, owner) && Owned(main, threads, owner)
    requires Holding(main, slots, threads, owner, held)
    ensures Roles(next, slots, threads, owner) && Owned(next, threads, owner)
    ensures Holding(next, slots, threads, owner, held)
  {
  }

  lemma OpenSockets(main: Main, slots: seq<int>, open: map<int, nat>, held: map<nat, nat>, holder: map<int, Holder>,
                    fd: nat, conn: nat)
    requires !InHand(main) && fd !in open
    requires Sockets(main, slots, open, held, holder) && Backed(main, slots, held, holder)
    ensures
      var (next, o, h) := (Receiving(fd, conn), open[fd := conn], holder[fd := Hand]);
      Sockets(next, slots, o, held, h) && Backed(next, slots, held, h)
  {
  }

  lemma RejectSockets(main: Main, slots: seq<int>, open: map<int, nat>, held: map<nat, nat>, holder: map<int, Holder>)
    requires main.Rejecting?
    requires Sockets(main, slots, open, held, holder) && Backed(main, slots, held, holder)
    ensures
      var (o, h) := (open - {main.fd}, holder - {main.fd});
      Sockets(Accepting, slots, o, held, h) && Backed(Accepting, slots, held, h)
  {
  }

  lemma ClaimHolds(main: Main, slots: seq<int>, threads: Threads, owner: map<nat, Owner>, held: map<nat, nat>)
    requires main.Claiming? && main.role < ROLES && Roles(main, slots, threads, owner)
    requires Holding(main, slots, threads, owner, held) && Owned(main, threads, owner)
    ensures
      var (m, sl, o) := (Creating(main.conn, main.role), slots[main.role := main.fd], owner[main.role := Parent]);
      && Roles(m, sl, threads, o) && Owned(m, threads, o)
      && Holding(m, sl, threads, o, held[main.role := main.conn])
  {
    forall i | i in threads
      ensures Keeps(threads[i], slots[main.role := main.fd], held[main.role := main.conn])
    {
      assert threads[i].role != main.role && Keeps(threads[i], slots, held);
    }
  }

  lemma ClaimSockets(main: Main, slots: seq<int>, open: map<int, nat>, held: map<nat, nat>, holder: map<int, Holder>)
    requires main.Claiming? && main.role < ROLES == |slots| && main.role !in held
    requires Sockets(main, slots, open, held, holder) && Backed(main, slots, held, holder)
    ensures
      var (m, sl, h, ho) := (Creating(main.conn, main.role), slots[main.role := main.fd], held[main.role := main.conn],
                             holder[main.fd := Slot(main.role)]);
      Sockets(m, sl, open, h, ho) && Backed(m, sl, h, ho)
  {
  }

  lemma CreateHolds(main: Main, slots: seq<int>, threads: Threads, owner: map<nat, Owner>, held: map<nat, nat>, id: nat)
    requires main.Creating? && main.role < ROLES && id !in threads && Roles(main, slots, threads, owner)
    requires Holding(main, slots, threads, owner, held) && Owned(main, threads, owner)
    ensures
      var (th, o) := (threads[id := Thread(main.role, main.conn, Starting)], owner[main.role := Child(id)]);
      && Roles(Accepting, slots, th, o) && Owned(Accepting, th, o)
      && Holding(Accepting, slots, th, o, held)
  {
  }

  lemma NobodyHolds(main: Main, slots: seq<int>, threads: Threads, owner: map<nat, Owner>, held: map<nat, nat>)
    requires main.Creating? && main.role < ROLES && Roles(main, slots, threads, owner)
    requires Holding(main, slots, threads, owner, held) && Owned(main, threads, owner)
    ensures
      var o := owner[main.role := Nobody];
      && Roles(Accepting, slots, threads, o) && Owned(Accepting, threads, o)
      && Holding(Accepting, slots, threads, o, held)
  {
  }

  lemma RunHolds(main: Main, slots: seq<int>, threads: Threads, owner: map<nat, Owner>, held: map<nat, nat>,
                 id: nat, pc: Pc)
    requires id in threads && !threads[id].pc.Clearing? && (pc.Serving? || pc.Closing?)
    requires Roles(main, slots, threads, owner) && Holding(main, slots, threads, owner, held)
    requires threads[id].role < ROLES
    requires pc.fd == if threads[id].pc.Starting? then slots[threads[id].role] else threads[id].pc.fd
    ensures
      var th := threads[id := threads[id].(pc := pc)];
      && Roles(main, slots, th, owner) && Holding(main, slots, th, owner, held)
      && (Owned(main, threads, owner) ==> Owned(main, th, owner))
  {
    assert Keeps(threads[id], slots, held);
  }

  lemma CloseHolds(main: Main, slots: seq<int>, threads: Threads, owner: map<nat, Owner>, held: map<nat, nat>, id: nat)
    requires id in threads && threads[id].pc.Closing? && Owned(main, threads, owner)
    requires Roles(main, slots, threads, owner) && Holding(main, slots, threads, owner, held)
    ensures
      var th := threads[id := threads[id].(pc := Clearing)];
      && Roles(main, slots, th, owner) && Holding(main, slots, th, owner, held - {threads[id].role})
      && Owned(main, th, owner)
  {
    var role := threads[id].role;
    assert owner[role] == Child(id);
    forall i | i in threads && i != id ensures Keeps(threads[i], slots, held - {role}) {
      assert owner[threads[i].role] == Child(i) && Keeps(threads[i], slots, held);
    }
  }

  lemma CloseSockets(main: Main, slots: seq<int>, open: map<int, nat>, held: map<nat, nat>, holder: map<int, Holder>,
                     role: nat, fd: int)
    requires role in held && role < |slots| && slots[role] == fd
    requires Sockets(main, slots, open, held, holder) && Backed(main, slots, held, holder)
    ensures
      var (o, h, ho) := (open - {fd}, held - {role}, holder - {fd});
      Sockets(main, slots, o, h, ho) && Backed(main, slots, h, ho)
  {
  }

  lemma ClearHolds(main: Main, slots: seq<int>, threads: Threads, owner: map<nat, Owner>, held: map<nat, nat>, id: nat)
    requires id in threads && threads[id].pc.Clearing? && Owned(main, threads, owner)
    requires Roles(main, slots, threads, owner) && Holding(main, slots, threads, owner, held)
    ensures threads[id].role < ROLES
    ensures
      var (sl, th, o) := (slots[threads[id].role := -1], threads - {id}, owner - {threads[id].role});
      && Roles(main, sl, th, o) && Owned(main, th, o)
      && Holding(main, sl, th, o, held)
  {
    var role := threads[id].role;
    assert Keeps(threads[id], slots, held) && owner[role] == Child(id);
    forall i | i in threads && i != id ensures Keeps(threads[i], slots[role := -1], held) {
      assert owner[threads[i].role] == Child(i) && Keeps(threads[i], slots, held);
    }
  }

  lemma ClearSockets(main: Main, slots: seq<int>, open: map<int, nat>, held: map<nat, nat>, holder: map<int, Holder>,
                     role: nat)
    requires role !in held && role < |slots|
    requires Sockets(main, slots, open, held, holder) && Backed(main, slots, held, holder)
    ensures Sockets(main, slots[role := -1], open, held, holder) && Backed(main, slots[role := -1], held, holder)
  {
  }

  // Put together.

  lemma AcceptKeeps(s: State, fd: nat)
    requires Inv(s) && s.main.Accepting? && fd !in s.files.open
    ensures Inv(Next(s, Accept(fd)))
  {
    OpenKeepsAccount(s.files, fd);
    MainMoves(s.main, Receiving(fd, |s.files.sock|), s.slots, s.threads, s.owner, s.held);
    OpenSockets(s.main, s.slots, s.files.open, s.held, s.holder, fd, |s.files.sock|);
  }

  lemma CommandKeeps(s: State, result: int, command: nat)
    requires Inv(s) && s.main.Receiving?
    ensures Inv(CommandNext(s, result, command))
  {
    MainMoves(s.main, CommandNext(s, result, command).main, s.slots, s.threads, s.owner, s.held);
  }

  lemma RejectKeeps(s: State, outcome: Outcome)
    requires Inv(s) && s.main.Rejecting?
    ensures Inv(MainNext(s, outcome))
  {
    CloseKeepsAccount(s.files, s.main.fd);
    MainMoves(s.main, Accepting, s.slots, s.threads, s.owner, s.held);
    RejectSockets(s.main, s.slots, s.files.open, s.held, s.holder);
  }

  lemma ClaimKeeps(s: State, outcome: Outcome)
    requires Inv(s) && s.main.Claiming?
    ensures Inv(MainNext(s, outcome))
  {
    ClaimHolds(s.main, s.slots, s.threads, s.owner, s.held);
    ClaimSockets(s.main, s.slots, s.files.open, s.held, s.holder);
  }

  lemma CreatedKeeps(s: State)
    requires Inv(s) && s.main.Creating?
    ensures Inv(MainNext(s, Created))
  {
    CreateHolds(s.main, s.slots, s.threads, s.owner, s.held, s.created);
  }

  lemma CreateKeeps(s: State, outcome: Outcome)
    requires Inv(s) && s.main.Creating?
    ensures Inv(MainNext(s, outcome))
  {
    match outcome
    case Created => CreatedKeeps(s);
    case PositiveError => NobodyHolds(s.main, s.slots, s.threads, s.owner, s.held);
    case NegativeError =>
  }

  lemma MainKeeps(s: State, outcome: Outcome)
    requires Inv(s)
    ensures Inv(MainNext(s, outcome))
  {
    match s.main
    case Rejecting(_, _) => RejectKeeps(s, outcome);
    case Claiming(_, _, _) => ClaimKeeps(s, outcome);
    case Creating(_, _) => CreateKeeps(s, outcome);
    case _ =>
  }

  lemma RunOnKeeps(s: State, id: nat, done: bool)
    requires Inv(s) && id in s.threads && (s.threads[id].pc.Starting? || s.threads[id].pc.Serving?)
    ensures Inv(HandlerNext(s, id, done))
  {
    if s.threads[id].pc.Starting? || done {
      RunHolds(s.main, s.slots, s.threads, s.owner, s.held, id, HandlerNext(s, id, done).threads[id].pc);
    }
  }

  lemma CloseKeeps(s: State, id: nat, done: bool)
    requires Inv(s) && id in s.threads && s.threads[id].pc.Closing? && !s.main.Dead?
    ensures Inv(HandlerNext(s, id, done))
  {
    var t := s.threads[id];
    assert Keeps(t, s.slots, s.held);
    CloseKeepsAccount(s.files, t.pc.fd);
    CloseHolds(s.main, s.slots, s.threads, s.owner, s.held, id);
    CloseSockets(s.main, s.slots, s.files.open, s.held, s.holder, t.role, t.pc.fd);
  }

  lemma ClearKeeps(s: State, id: nat, done: bool)
    requires Inv(s) && id in s.threads && s.threads[id].pc.Clearing? && !s.main.Dead?
    ensures Inv(HandlerNext(s, id, done))
  {
    assert Keeps(s.threads[id], s.slots, s.held);
    ClearHolds(s.main, s.slots, s.threads, s.owner, s.held, id);
    ClearSockets(s.main, s.slots, s.files.open, s.held, s.holder, s.threads[id].role);
  }

  lemma StepKeeps(s: State, e: Event)
    requires Inv(s)
    ensures Inv(Next(s, e))
  {
    match e
    case Accept(fd) => if s.main.Accepting? && fd !in s.files.open { AcceptKeeps(s, fd); }
    case AcceptError =>
    case Command(result, command) => if s.main.Receiving? { CommandKeeps(s, result, command); }
    case Main(outcome) => MainKeeps(s, outcome);
    case Handler(id, done) =>
      if id in s.threads {
        match s.threads[id].pc
        case Closing(_) => CloseKeeps(s, id, done);
        case Clearing => ClearKeeps(s, id, done);
        case _ => RunOnKeeps(s, id, done);
      }
  }

  // ---------------------------------------------------------------- what it is for

  ghost function NextOrStay(s: State, e: Event): State { if Sane(s) then Next(s, e) else s }

  ghost function After(events: seq<Event>): State { Runs.Run(NextOrStay, INIT, events) }

  lemma {:induction false} Reachable(events: seq<Event>)
    ensures Inv(After(events))
  {
    if events != [] {
      var front := events[..|events| - 1];
      Reachable(front);
      StepKeeps(After(front), events[|events| - 1]);
    }
  }

  /** In every interleaving each role has one handler at most, and none while main is giving
      the role away. */
  lemma OneOwnerPerRole(events: seq<Event>, i: nat, j: nat)
    requires var s := After(events); i in s.threads && j in s.threads && s.threads[i].role == s.threads[j].role
    ensures i == j
    ensures var s := After(events); (s.main.Claiming? || s.main.Creating?) ==> s.main.role != s.threads[i].role
  {
    Reachable(events);
  }

  /** Event k makes pthread_create fail with a positive error number for a role. */
  ghost predicate CreateFails(events: seq<Event>, k: nat, r: nat) {
    && k < |events| && events[k] == Main(PositiveError)
    && After(events[..k]).main.Creating? && After(events[..k]).main.role == r
  }

  ghost predicate CreateFailed(events: seq<Event>, r: nat) { exists k: nat :: CreateFails(events, k, r) }

  lemma AfterOneMore(events: seq<Event>, e: Event)
    ensures After(events + [e]) == NextOrStay(After(events), e)
  {
    assert (events + [e])[..|events|] == events;
  }

  lemma FailureStays(events: seq<Event>, later: seq<Event>, k: nat, r: nat)
    requires k < |events|
    ensures CreateFails(events + later, k, r) <==> CreateFails(events, k, r)
  {
    assert (events + later)[..k] == events[..k];
  }

  lemma FailedOneMore(events: seq<Event>, e: Event, r: nat)
    ensures CreateFailed(events + [e], r)
       <==> CreateFailed(events, r)
            || (e == Main(PositiveError) && After(events).main.Creating? && After(events).main.role == r)
  {
    assert (events + [e])[..|events|] == events;
    if CreateFailed(events + [e], r) {
      var k: nat :| CreateFails(events + [e], k, r);
      if k < |events| {
        FailureStays(events, [e], k, r);
      }
    }
    if CreateFailed(events, r) {
      var k: nat :| CreateFails(events, k, r);
      FailureStays(events, [e], k, r);
    }
    assert CreateFails(events + [e], |events|, r)
      <==> e == Main(PositiveError) && After(events).main.Creating? && After(events).main.role == r;
  }

  predicate Orphaned(s: State, r: nat) { r in s.owner && s.owner[r].Nobody? }

  /** A role is orphaned by such a failure and by nothing else, and stays so. */
  lemma OrphanStep(s: State, e: Event, r: nat)
    requires Sane(s) && Roles(s.main, s.slots, s.threads, s.owner)
    ensures Orphaned(Next(s, e), r)
       <==> Orphaned(s, r) || (e == Main(PositiveError) && s.main.Creating? && s.main.role == r)
  {
    match e
    case Handler(id, done) =>
      if id in s.threads {
        assert s.owner[s.threads[id].role] == Child(id);
      }
    case _ =>
  }

  lemma {:induction false} OrphanedMeans(events: seq<Event>, r: nat)
    ensures Orphaned(After(events), r) <==> CreateFailed(events, r)
  {
    if events != [] {
      var front, e := events[..|events| - 1], events[|events| - 1];
      OrphanedMeans(front, r);
      Reachable(front);
      OrphanStep(After(front), e, r);
      FailedOneMore(front, e, r);
      assert events == front + [e];
    }
  }

  /** Any role can be orphaned: by one connection and one failure. */
  lemma FailureHappens(fd: nat, r: nat)
    requires r < ROLES
    ensures CreateFailed([Accept(fd), Command(4, r), Main(Created), Main(PositiveError)], r)
  {
    AfterOneMore([], Accept(fd));
    AfterOneMore([] + [Accept(fd)], Command(4, r));
    AfterOneMore([] + [Accept(fd)] + [Command(4, r)], Main(Created));
    var es := [Accept(fd), Command(4, r), Main(Created), Main(PositiveError)];
    assert es[..3] == [] + [Accept(fd)] + [Command(4, r)] + [Main(Created)];
    assert CreateFails(es, 3, r);
  }

  /** A slot is full exactly while main or a handler owns the role, or a pthread_create for it
      failed with a positive error number. */
  lemma FullSlotHasAnOwner(events: seq<Event>, r: nat)
    requires r < ROLES && !After(events).main.Dead?
    ensures
      var s := After(events);
      && |s.slots| == ROLES
      && (s.slots[r] > -1 <==>
            || (s.main.Creating? && s.main.role == r)
            || (exists i :: i in s.threads && s.threads[i].role == r)
            || CreateFailed(events, r))
  {
    Reachable(events);
    OrphanedMeans(events, r);
  }

  lemma OrphanIsLeftAlone(s: State, r: nat, result: int)
    requires Sane(s) && Roles(s.main, s.slots, s.threads, s.owner) && r < ROLES && Orphaned(s, r)
    ensures s.slots[r] > -1 && (forall i :: i in s.threads ==> s.threads[i].role != r)
    ensures s.main.Receiving? ==> Next(s, Command(result, r)).main.Rejecting?
  {
  }

  /** In that case the role is lost for good: at any later time nobody handles it, and every
      connection that asks for it is rejected. */
  lemma LostForGood(events: seq<Event>, later: seq<Event>, r: nat, result: int)
    requires r < ROLES && CreateFailed(events, r)
    ensures
      var s := After(events + later);
      && Sane(s) && s.slots[r] > -1
      && (forall i :: i in s.threads ==> s.threads[i].role != r)
      && (s.main.Receiving? ==> Next(s, Command(result, r)).main.Rejecting?)
  {
    var k: nat :| CreateFails(events, k, r);
    FailureStays(events, later, k, r);
    OrphanedMeans(events + later, r);
    Reachable(events + later);
    OrphanIsLeftAlone(After(events + later), r, result);
  }

  lemma SlotOfHandlerKept(s: State, i: nat, e: Event)
    requires Sane(s) && Roles(s.main, s.slots, s.threads, s.owner)
    requires i in s.threads && !s.threads[i].pc.Clearing?
    ensures Next(s, e).slots[s.threads[i].role] == s.slots[s.threads[i].role]
  {
    match e
    case Handler(id, done) =>
      if id in s.threads && id != i {
        assert s.owner[s.threads[id].role] == Child(id) && s.owner[s.threads[i].role] == Child(i);
      }
    case _ =>
  }

  /** Whatever anybody does, the slot of a handler stays as it is until that handler clears it,
      and the handler works on the connection it was created for, on an open socket. */
  lemma SlotIsStable(events: seq<Event>, i: nat, e: Event)
    requires i in After(events).threads && Sane(After(events)) && !After(events).threads[i].pc.Clearing?
    ensures
      var s, t := After(events), After(events).threads[i];
      && s.slots[t.role] in s.files.open && s.files.open[s.slots[t.role]] == t.conn
      && (t.pc.Starting? || t.pc.fd == s.slots[t.role])
      && Next(s, e).slots[t.role] == s.slots[t.role]
  {
    Reachable(events);
    var s := After(events);
    assert Keeps(s.threads[i], s.slots, s.held);
    SlotOfHandlerKept(s, i, e);
  }

  /** Some socket stands for this connection. */
  predicate IsOpen(f: Files, c: nat) { exists fd :: fd in f.open && f.open[fd] == c }

  lemma OpenOrClosed(f: Files)
    requires Accounted(f)
    ensures forall c :: 0 <= c < |f.closes| ==>
      f.closes[c] == if IsOpen(f, c) then 0 else 1
  {
    forall c | 0 <= c < |f.closes|
      ensures f.closes[c] == if IsOpen(f, c) then 0 else 1
    {
      var own := f.sock[c];
      assert f.closes[c] == 0 ==> own in f.open && f.open[own] == c;
      assert forall fd :: fd in f.open && f.open[fd] == c ==> f.closes[f.open[fd]] == 0;
    }
  }

  /** Every connection ever accepted is open on its own socket or has been closed exactly once;
      no close ever misses; and while the server runs every open socket is in main's hand or in
      the slot of a role that is owned. */
  lemma ClosedOnce(events: seq<Event>)
    ensures
      var s, f := After(events), After(events).files;
      && !f.stray && |s.slots| == ROLES
      && (forall c :: 0 <= c < |f.closes| ==>
            f.closes[c] == if IsOpen(f, c) then 0 else 1)
      && (!s.main.Dead? ==> forall fd :: fd in f.open ==>
            || (InHand(s.main) && s.main.fd == fd)
            || exists r :: 0 <= r < ROLES && r in s.owner && s.slots[r] == fd)
  {
    Reachable(events);
    var s := After(events);
    OpenOrClosed(s.files);
    forall fd | fd in s.files.open && !s.main.Dead?
      ensures (InHand(s.main) && s.main.fd == fd) || exists r :: 0 <= r < ROLES && r in s.owner && s.slots[r] == fd
    {
      assert fd in s.holder;
      if s.holder[fd].Slot? {
        var r := s.holder[fd].role;
        assert r in s.held && r in s.owner && s.slots[r] == fd;
      }
    }
  }

  // ------------------------------------------------------- who gets a role, and until when

  /** A connection gets the role its command names exactly when there is such a role and nobody
      has it, and its handler could be created the last time; otherwise it is rejected. */
  lemma CommandIsJudged(events: seq<Event>, result: int, command: nat)
    requires After(events).main.Receiving?
    ensures
      var s := After(events);
      && Sane(s)
      && var t := Next(s, Command(result, command)).main;
         if result > 0 && command < 4 && !CreateFailed(events, command)
            && (forall i :: i in s.threads ==> s.threads[i].role != command)
         then t == Claiming(s.main.fd, s.main.conn, command)
         else t == Rejecting(s.main.fd, s.main.conn)
  {
    Reachable(events);
    if command < ROLES {
      FullSlotHasAnOwner(events, command);
    }
  }

  /** The steps a handler has left once its client is done. */
  function Left(t: Thread): nat {
    match t.pc
    case Starting => 4
    case Serving(_) => 3
    case Closing(_) => 2
    case Clearing => 1
  }

  function DoneSteps(later: seq<Event>, i: nat): nat {
    if later == [] then 0
    else DoneSteps(later[..|later| - 1], i) + if later[|later| - 1] == Handler(i, true) then 1 else 0
  }

  /** Connection c has been closed. */
  predicate Shut(f: Files, c: nat) { c < |f.closes| && f.closes[c] == 1 }

  lemma CloseAndOpenKeepShut(f: Files, fd: int, c: nat)
    requires Accounted(f) && Shut(f, c)
    ensures Shut(Close(f, fd), c) && Shut(Open(f, fd), c)
  {
  }

  lemma ShutStays(s: State, e: Event, c: nat)
    requires Sane(s) && Accounted(s.files) && Shut(s.files, c)
    ensures Shut(Next(s, e).files, c)
  {
    match e
    case Accept(fd) => CloseAndOpenKeepShut(s.files, fd, c);
    case Main(_) => if s.main.Rejecting? { CloseAndOpenKeepShut(s.files, s.main.fd, c); }
    case Handler(i, _) =>
      if i in s.threads && s.threads[i].pc.Closing? {
        CloseAndOpenKeepShut(s.files, s.threads[i].pc.fd, c);
      }
    case _ =>
  }

  lemma DeadStays(s: State, e: Event)
    requires Sane(s) && s.main.Dead?
    ensures Next(s, e).main.Dead?
  {
  }

  lemma GoneStays(s: State, e: Event, i: nat)
    requires Sane(s) && i !in s.threads && i < s.created
    ensures i !in Next(s, e).threads && i < Next(s, e).created
  {
  }

  lemma OtherHandler(s: State, k: nat, done: bool, i: nat)
    requires Sane(s) && i in s.threads && k in s.threads && k != i
    ensures var t := HandlerNext(s, k, done); i in t.threads && t.threads[i] == s.threads[i]
  {
  }

  lemma OneCloser(s: State, e: Event, i: nat)
    requires Sane(s) && i in s.threads
    ensures
      var t := Next(s, e);
      || t.main.Dead?
      || (if i !in t.threads then s.threads[i].pc.Clearing?
          else
            && t.threads[i].conn == s.threads[i].conn
            && Left(t.threads[i]) + (if e == Handler(i, true) then 1 else 0) <= Left(s.threads[i]))
  {
    match e
    case Handler(k, done) => if k in s.threads && k != i { OtherHandler(s, k, done, i); }
    case _ =>
  }

  lemma CloseShuts(f: Files, fd: int)
    requires Accounted(f) && fd in f.open
    ensures Shut(Close(f, fd), f.open[fd])
  {
  }

  /** A handler closes the connection it was created for. */
  lemma ClosingShuts(s: State, done: bool, i: nat)
    requires Inv(s) && i in s.threads && s.threads[i].pc.Closing?
    ensures Shut(HandlerNext(s, i, done).files, s.threads[i].conn)
  {
    assert Keeps(s.threads[i], s.slots, s.held);
    CloseShuts(s.files, s.threads[i].pc.fd);
  }

  /** Only by closing its socket does a handler get to clearing its slot. */
  lemma OnlyByClosing(s: State, e: Event, i: nat)
    requires Sane(s) && i in s.threads && !s.threads[i].pc.Clearing?
    requires i in Next(s, e).threads && Next(s, e).threads[i].pc.Clearing?
    ensures e.Handler? && e.id == i && s.threads[i].pc.Closing?
  {
    match e
    case Handler(k, done) => if k in s.threads && k != i { OtherHandler(s, k, done, i); }
    case _ =>
  }

  /** On its way out: its socket closed and then its slot given back. */
  predicate OnItsWay(s: State, i: nat, c: nat, steps: nat) {
    || s.main.Dead?
    || (if i !in s.threads then Shut(s.files, c)
        else
          && s.threads[i].conn == c && Left(s.threads[i]) + steps <= 4
          && (s.threads[i].pc.Clearing? ==> Shut(s.files, c)))
  }

  lemma CreatedGrows(s: State, e: Event)
    requires Sane(s)
    ensures Next(s, e).created >= s.created
  {
  }

  lemma OnItsWayKept(s: State, e: Event, i: nat, c: nat, steps: nat)
    requires Inv(s) && OnItsWay(s, i, c, steps) && i < s.created
    ensures var t := Next(s, e);
      OnItsWay(t, i, c, steps + if e == Handler(i, true) then 1 else 0) && i < t.created
  {
    CreatedGrows(s, e);
    if s.main.Dead? {
      DeadStays(s, e);
    } else if i !in s.threads {
      ShutStays(s, e, c);
      GoneStays(s, e, i);
    } else {
      OneCloser(s, e, i);
      if s.threads[i].pc.Clearing? {
        ShutStays(s, e, c);
      } else if i in Next(s, e).threads && Next(s, e).threads[i].pc.Clearing? {
        OnlyByClosing(s, e, i);
        ClosingShuts(s, e.done, i);
      }
    }
  }

  lemma {:induction false} StaysOnItsWay(s: State, later: seq<Event>, i: nat, c: nat)
    requires Inv(s) && OnItsWay(s, i, c, 0) && i < s.created
    ensures
      var t := Runs.Run(NextOrStay, s, later);
      Inv(t) && OnItsWay(t, i, c, DoneSteps(later, i)) && i < t.created
  {
    if later != [] {
      var front, e := later[..|later| - 1], later[|later| - 1];
      StaysOnItsWay(s, front, i, c);
      var t := Runs.Run(NextOrStay, s, front);
      OnItsWayKept(t, e, i, c, DoneSteps(front, i));
      StepKeeps(t, e);
    }
  }

  lemma NoStepLeft(s: State, i: nat, c: nat, steps: nat)
    requires OnItsWay(s, i, c, steps) && steps >= 4
    ensures s.main.Dead? || (i !in s.threads && Shut(s.files, c))
  {
  }

  /** Once the client of a handler is done, four of its steps are enough to close the connection
      and end the handler, whatever else happens - unless the whole server ends. */
  lemma DoneIsOver(events: seq<Event>, later: seq<Event>, i: nat)
    requires i in After(events).threads && !After(events).threads[i].pc.Clearing? && DoneSteps(later, i) >= 4
    ensures
      var t := After(events + later);
      t.main.Dead? || (i !in t.threads && Shut(t.files, After(events).threads[i].conn))
  {
    Reachable(events);
    Runs.RunAppend(NextOrStay, INIT, events, later);
    var s := After(events);
    StaysOnItsWay(s, later, i, s.threads[i].conn);
    NoStepLeft(Runs.Run(NextOrStay, s, later), i, s.threads[i].conn, DoneSteps(later, i));
  }

  /** And with its last step the slot is free again, and no other slot changes. */
  lemma LastStepFreesSlot(events: seq<Event>, i: nat, done: bool)
    requires i in After(events).threads && After(events).threads[i].pc.Clearing?
    ensures
      var s, r := After(events), After(events).threads[i].role;
      && Sane(s) && r < ROLES
      && var t := Next(s, Handler(i, done));
         i !in t.threads && t.slots == s.slots[r := -1] && t.files == s.files
  {
    Reachable(events);
  }
}
