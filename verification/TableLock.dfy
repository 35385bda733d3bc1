/**
 Refreshes and requests share one routing table behind a reader-writer lock that is
 granted in the order it is asked for. A refresh builds its own table container by
 container and then swaps it in; a request looks up the domain index and then the
 path index under the read lock.
 */
module TableLock {
  import opened Prelude
  import opened Texts
  import opened Routing

  type Task = nat

  datatype Pc =
    | Building(snapshot: seq<PublishedContainer>, done: nat, table: RoutingTable)
    | Waiting(snapshot: seq<PublishedContainer>, table: RoutingTable)
    | SwappingPaths(snapshot: seq<PublishedContainer>, table: RoutingTable)
    | SwappingDomains(snapshot: seq<PublishedContainer>, table: RoutingTable)
    | Asking(request: Request)
    | WaitingToRead(request: Request)
    | LookingUpDomain(request: Request)
    | LookingUpPath(request: Request)
    | Answered(request: Request, destination: Destination)
    | Finished

  /**
   `readers` and `writer` are who holds the lock, `queue` who waits for it, first come first;
   `installed` is the snapshot behind the table, as history.
   */
  datatype State = State(
    table: RoutingTable,
    readers: set<Task>,
    writer: Option<Task>,
    queue: seq<Task>,
    tasks: map<Task, Pc>,
    installed: seq<PublishedContainer>,
    snapshots: set<seq<PublishedContainer>>)

  const START := State(EMPTY_TABLE, {}, None, [], map[], [], {[]})

  datatype Action = Refresh(snapshot: seq<PublishedContainer>) | Ask(request: Request) | Next

  function Set(s: State, t: Task, pc: Pc): State {
    s.(tasks := s.tasks[t := pc])
  }

  /** First in the queue, and the lock is free for it. */
  predicate IsNext(s: State, t: Task) {
    s.queue != [] && s.queue[0] == t && s.writer.None?
  }

  /** One step of one task; a task that needs the lock queues for it, and waits until it is its turn. */
  function Step(s: State, t: Task, act: Action): Option<State> {
    match act
    case Refresh(snapshot) =>
      if t in s.tasks then None
      else Some(Set(s.(snapshots := s.snapshots + {snapshot}), t, Building(snapshot, 0, EMPTY_TABLE)))
    case Ask(request) => if t in s.tasks then None else Some(Set(s, t, Asking(request)))
    case Next =>
      if t !in s.tasks then None
      else
        match s.tasks[t]
        case Building(snapshot, done, table) =>
          if done < |snapshot| then Some(Set(s, t, Building(snapshot, done + 1, Insert(table, snapshot[done]))))
          else Some(Set(s.(queue := s.queue + [t]), t, Waiting(snapshot, table)))
        case Waiting(snapshot, table) =>
          if IsNext(s, t) && s.readers == {} then
            Some(Set(s.(writer := Some(t), queue := s.queue[1..]), t, SwappingPaths(snapshot, table)))
          else None
        case SwappingPaths(snapshot, table) =>
          Some(Set(s.(table := s.table.(pathMaps := table.pathMaps)), t, SwappingDomains(snapshot, table)))
        case SwappingDomains(snapshot, table) =>
          Some(Set(s.(table := s.table.(domainMaps := table.domainMaps), writer := None, installed := snapshot),
                   t, Finished))
        case Asking(request) => Some(Set(s.(queue := s.queue + [t]), t, WaitingToRead(request)))
        case WaitingToRead(request) =>
          if IsNext(s, t) then
            Some(Set(s.(readers := s.readers + {t}, queue := s.queue[1..]), t, LookingUpDomain(request)))
          else None
        case LookingUpDomain(request) =>
          (match RouteByDomain(s.table, request)
           case Some(destination) => Some(Set(s.(readers := s.readers - {t}), t, Answered(request, destination)))
           case None => Some(Set(s, t, LookingUpPath(request))))
        case LookingUpPath(request) =>
          Some(Set(s.(readers := s.readers - {t}), t, Answered(request, RouteByPath(s.table, request))))
        case Answered(_, _) => None
        case Finished => None
  }

  function RouteByDomain(t: RoutingTable, request: Request): Option<Destination> {
    var domain := HostDomain(request);
    if domain.Some? && domain.value in t.domainMaps then
      var c := t.domainMaps[domain.value];
      Some(ReverseProxied(c.hostAddr, request.uri.path + QueryPart(request.uri), None, c.config))
    else None
  }

  /** The rest of the decision, which does not look at domains. */
  function RouteByPath(t: RoutingTable, request: Request): Destination {
    Route(t.(domainMaps := map[]), request)
  }

  lemma RouteInTwoLookups(t: RoutingTable, request: Request)
    ensures Route(t, request)
            == match RouteByDomain(t, request)
               case Some(destination) => destination
               case None => RouteByPath(t, request)
  {
    hide HostDomain, SplitPath, QueryPart, Tail;
  }

  // ---------- The invariant ----------

  /** The answer follows from one snapshot alone. */
  ghost predicate FromOneSnapshot(s: State, request: Request, destination: Destination) {
    exists cs :: cs in s.snapshots && destination == Route(TableOf(cs), request)
  }

  ghost predicate TaskOk(s: State, t: Task, pc: Pc) {
    match pc
    case Building(snapshot, done, table) =>
      snapshot in s.snapshots && done <= |snapshot| && table == TableOf(snapshot[..done])
    case Waiting(snapshot, table) => snapshot in s.snapshots && table == TableOf(snapshot)
    case SwappingPaths(snapshot, table) => snapshot in s.snapshots && table == TableOf(snapshot) && s.writer == Some(t)
    case SwappingDomains(snapshot, table) =>
      && snapshot in s.snapshots && table == TableOf(snapshot) && s.writer == Some(t)
      && s.table.pathMaps == table.pathMaps
    case Asking(_) => true
    case WaitingToRead(_) => true
    case LookingUpDomain(_) => t in s.readers
    case LookingUpPath(request) => t in s.readers && RouteByDomain(s.table, request).None?
    case Answered(request, destination) => FromOneSnapshot(s, request, destination)
    case Finished => true
  }

  ghost predicate LockOk(s: State) {
    && (s.writer.Some? ==> s.readers == {})
    && (s.writer.Some? ==> s.writer.value in s.tasks
                           && (s.tasks[s.writer.value].SwappingPaths? || s.tasks[s.writer.value].SwappingDomains?))
    && (forall t | t in s.readers :: t in s.tasks && (s.tasks[t].LookingUpDomain? || s.tasks[t].LookingUpPath?))
  }

  predicate Queues(pc: Pc) {
    pc.Waiting? || pc.WaitingToRead?
  }

  /** Who waits is in the queue once, and nobody else is. */
  ghost predicate QueueHolds(queue: seq<Task>, tasks: map<Task, Pc>) {
    && (forall i, j | 0 <= i < j < |queue| :: queue[i] != queue[j])
    && (forall t | t in queue :: t in tasks && Queues(tasks[t]))
    && (forall t | t in tasks && Queues(tasks[t]) :: t in queue)
  }

  ghost predicate QueueOk(s: State) {
    QueueHolds(s.queue, s.tasks)
  }

  ghost predicate Inv(s: State) {
    && LockOk(s)
    && QueueOk(s)
    && s.installed in s.snapshots
    && (s.writer.None? ==> s.table == TableOf(s.installed))
    && (forall t | t in s.tasks :: TaskOk(s, t, s.tasks[t]))
  }

  /** Tasks that do not move stay all right when what they hold is untouched. */
  lemma OthersStay(s: State, s': State, t: Task)
    requires Inv(s) && s.snapshots <= s'.snapshots && t in s'.tasks && s'.tasks == s.tasks[t := s'.tasks[t]]
    requires forall r | r in s.readers && r != t :: r in s'.readers
    requires s'.writer == s.writer || s.writer == None || s.writer == Some(t)
    requires s'.table == s.table || s.writer == Some(t)
    ensures forall e | e in s'.tasks && e != t :: TaskOk(s', e, s'.tasks[e])
  {
    hide RouteByDomain, TableOf, Route;
    forall e | e in s'.tasks && e != t
      ensures TaskOk(s', e, s'.tasks[e])
    {
      assert e in s.tasks && TaskOk(s, e, s.tasks[e]);
    }
  }

  lemma QueueJoined(queue: seq<Task>, tasks: map<Task, Pc>, t: Task, pc: Pc)
    requires QueueHolds(queue, tasks) && (t in tasks ==> !Queues(tasks[t])) && Queues(pc)
    ensures QueueHolds(queue + [t], tasks[t := pc])
  {
    hide Queues;
    assert t !in queue;
    assert forall e :: e in queue + [t] <==> e in queue || e == t;
  }

  lemma QueueLeft(queue: seq<Task>, tasks: map<Task, Pc>, t: Task, pc: Pc)
    requires QueueHolds(queue, tasks) && queue != [] && queue[0] == t && !Queues(pc)
    ensures QueueHolds(queue[1..], tasks[t := pc])
  {
    hide Queues;
    assert queue == [t] + queue[1..];
    assert t !in queue[1..];
    assert forall e :: e in queue <==> e in queue[1..] || e == t;
  }

  lemma QueueStays(queue: seq<Task>, tasks: map<Task, Pc>, t: Task, pc: Pc)
    requires QueueHolds(queue, tasks) && (t in tasks ==> !Queues(tasks[t])) && !Queues(pc)
    ensures QueueHolds(queue, tasks[t := pc])
  {
    hide Queues;
  }

  lemma StepKeepsQueue(s: State, t: Task, act: Action)
    requires QueueOk(s) && Step(s, t, act).Some?
    ensures QueueOk(Step(s, t, act).value)
  {
    hide RouteByDomain, RouteByPath, Insert, QueueHolds;
    var s' := Step(s, t, act).value;
    if act.Next? && Queues(s.tasks[t]) {
      QueueLeft(s.queue, s.tasks, t, s'.tasks[t]);
    } else if Queues(s'.tasks[t]) {
      QueueJoined(s.queue, s.tasks, t, s'.tasks[t]);
    } else {
      QueueStays(s.queue, s.tasks, t, s'.tasks[t]);
    }
  }

  lemma BuildingStep(s: State, t: Task)
    requires Inv(s) && t in s.tasks && s.tasks[t].Building? && s.tasks[t].done < |s.tasks[t].snapshot|
    ensures Inv(Step(s, t, Next).value)
  {
    hide RouteByDomain, Route, Insert, QueueOk;
    var pc := s.tasks[t];
    assert TaskOk(s, t, pc);
    assert pc.snapshot[..pc.done + 1][..pc.done] == pc.snapshot[..pc.done];
    OthersStay(s, Step(s, t, Next).value, t);
    StepKeepsQueue(s, t, Next);
  }

  lemma AnswerStep(s: State, t: Task)
    requires Inv(s) && t in s.tasks && (s.tasks[t].LookingUpDomain? || s.tasks[t].LookingUpPath?)
    ensures Inv(Step(s, t, Next).value)
  {
    hide TableOf, Route, RouteByPath, RouteByDomain, QueueOk;
    var pc := s.tasks[t];
    assert TaskOk(s, t, pc);
    RouteInTwoLookups(s.table, pc.request);
    assert s.writer.None? && s.table == TableOf(s.installed);
    OthersStay(s, Step(s, t, Next).value, t);
    StepKeepsQueue(s, t, Next);
  }

  lemma OtherStep(s: State, t: Task, act: Action)
    requires Inv(s) && Step(s, t, act).Some?
    requires act.Next? ==> !s.tasks[t].LookingUpDomain? && !s.tasks[t].LookingUpPath?
                           && !(s.tasks[t].Building? && s.tasks[t].done < |s.tasks[t].snapshot|)
    ensures Inv(Step(s, t, act).value)
  {
    hide TableOf, Route, RouteByPath, RouteByDomain, Insert, QueueOk;
    var s' := Step(s, t, act).value;
    if act.Next? {
      var pc := s.tasks[t];
      assert TaskOk(s, t, pc);
      if pc.Building? {
        assert pc.snapshot[..|pc.snapshot|] == pc.snapshot;
      }
    }
    if act.Refresh? {
      EmptyPrefix(act.snapshot);
    }
    OthersStay(s, s', t);
    StepKeepsQueue(s, t, act);
  }

  lemma EmptyPrefix(cs: seq<PublishedContainer>)
    ensures TableOf(cs[..0]) == EMPTY_TABLE
  {
    assert cs[..0] == [];
  }

  lemma StepKeepsInv(s: State, t: Task, act: Action)
    requires Inv(s) && Step(s, t, act).Some?
    ensures Inv(Step(s, t, act).value)
  {
    hide Inv;
    if act.Next? && s.tasks[t].Building? && s.tasks[t].done < |s.tasks[t].snapshot| {
      BuildingStep(s, t);
    } else if act.Next? && (s.tasks[t].LookingUpDomain? || s.tasks[t].LookingUpPath?) {
      AnswerStep(s, t);
    } else {
      OtherStep(s, t, act);
    }
  }

  datatype Label = Label(task: Task, action: Action)

  function Run(s: State, schedule: seq<Label>): Option<State>
    decreases |schedule|
  {
    if schedule == [] then Some(s)
    else
      match Step(s, schedule[0].task, schedule[0].action)
      case Some(next) => Run(next, schedule[1..])
      case None => None
  }

  lemma {:induction false} RunKeepsInv(s: State, schedule: seq<Label>)
    requires Inv(s) && Run(s, schedule).Some?
    ensures Inv(Run(s, schedule).value)
    decreases |schedule|
  {
    hide Inv;
    if schedule != [] {
      StepKeepsInv(s, schedule[0].task, schedule[0].action);
      RunKeepsInv(Step(s, schedule[0].task, schedule[0].action).value, schedule[1..]);
    }
  }

  /**
   However refreshes and requests interleave, every answer is the decision of one table, built from
   one snapshot of the containers, and so the outcome of scanning that snapshot.
   */
  lemma AnswersComeFromOneSnapshot(schedule: seq<Label>, t: Task)
    requires Run(START, schedule).Some?
    requires t in Run(START, schedule).value.tasks && Run(START, schedule).value.tasks[t].Answered?
    ensures var s := Run(START, schedule).value;
            exists cs :: && cs in s.snapshots
                         && s.tasks[t].destination == Route(TableOf(cs), s.tasks[t].request)
                         && DecidedByScan(cs, s.tasks[t].request, s.tasks[t].destination)
  {
    hide DecidedByScan, Route, TableOf;
    assert Inv(START) by {
      EmptyPrefix(START.installed);
      assert START.installed[..0] == START.installed;
    }
    RunKeepsInv(START, schedule);
    var s := Run(START, schedule).value;
    assert TaskOk(s, t, s.tasks[t]);
    var cs :| cs in s.snapshots && s.tasks[t].destination == Route(TableOf(cs), s.tasks[t].request);
    RoutingIsScanning(cs, s.tasks[t].request);
  }

  lemma RunFirst(s: State, first: Label, rest: seq<Label>)
    requires Step(s, first.task, first.action).Some?
    ensures Run(s, [first] + rest) == Run(Step(s, first.task, first.action).value, rest)
  {
    assert ([first] + rest)[1..] == rest;
  }

  function Nexts(t: Task, count: nat, rest: seq<Label>): seq<Label> {
    if count == 0 then rest else [Label(t, Next)] + Nexts(t, count - 1, rest)
  }

  /** Task 0 looks at the containers before task 1 does, and installs its table after. */
  function LateInstall(newer: PublishedContainer): seq<Label> {
    [Label(0, Refresh([]))] + ([Label(1, Refresh([newer]))] + Nexts(1, 5, Nexts(0, 4, [])))
  }

  lemma NewerInstalls(s: State, newer: PublishedContainer) returns (s': State)
    requires s.table == EMPTY_TABLE && s.readers == {} && s.writer.None? && s.queue == []
    requires s.tasks == map[0 := Building([], 0, EMPTY_TABLE), 1 := Building([newer], 0, EMPTY_TABLE)]
    ensures forall rest :: Run(s, Nexts(1, 5, rest)) == Run(s', rest)
    ensures s'.readers == {} && s'.writer.None? && s'.queue == [] && s'.snapshots == s.snapshots
    ensures s'.tasks == map[0 := Building([], 0, EMPTY_TABLE), 1 := Finished]
  {
    hide Insert;
    var s1 := Step(s, 1, Next).value;
    var s2 := Step(s1, 1, Next).value;
    var s3 := Step(s2, 1, Next).value;
    var s4 := Step(s3, 1, Next).value;
    s' := Step(s4, 1, Next).value;
    hide Step, Run;
    forall rest
      ensures Run(s, Nexts(1, 5, rest)) == Run(s', rest)
    {
      RunNext(s, 1, 4, rest);
      RunNext(s1, 1, 3, rest);
      RunNext(s2, 1, 2, rest);
      RunNext(s3, 1, 1, rest);
      RunNext(s4, 1, 0, rest);
    }
  }

  lemma RunNext(s: State, t: Task, count: nat, rest: seq<Label>)
    requires Step(s, t, Next).Some?
    ensures Run(s, Nexts(t, count + 1, rest)) == Run(Step(s, t, Next).value, Nexts(t, count, rest))
  {
    hide Step;
    RunFirst(s, Label(t, Next), Nexts(t, count, rest));
  }

  lemma OlderInstalls(s: State) returns (s': State)
    requires s.readers == {} && s.writer.None? && s.queue == []
    requires s.tasks == map[0 := Building([], 0, EMPTY_TABLE), 1 := Finished]
    ensures Run(s, Nexts(0, 4, [])) == Some(s')
    ensures s'.installed == [] && s'.table == EMPTY_TABLE && s'.snapshots == s.snapshots
    ensures s'.tasks == map[0 := Finished, 1 := Finished]
  {
    hide Insert;
    var s1 := Step(s, 0, Next).value;
    var s2 := Step(s1, 0, Next).value;
    var s3 := Step(s2, 0, Next).value;
    s' := Step(s3, 0, Next).value;
    hide Step;
    RunNext(s, 0, 3, []);
    RunNext(s1, 0, 2, []);
    RunNext(s2, 0, 1, []);
    RunNext(s3, 0, 0, []);
  }

  /** Nothing orders two refreshes: the older snapshot can be installed last. */
  lemma OlderSnapshotCanWin(newer: PublishedContainer)
    ensures Run(START, LateInstall(newer)).Some?
    ensures var s := Run(START, LateInstall(newer)).value;
            && [newer] in s.snapshots && s.tasks == map[0 := Finished, 1 := Finished]
            && s.installed == [] && s.table == EMPTY_TABLE != TableOf([newer])
  {
    hide Nexts, Insert;
    var first, second := Label(0, Refresh([])), Label(1, Refresh([newer]));
    var s1 := Step(START, 0, Refresh([])).value;
    var s2 := Step(s1, 1, Refresh([newer])).value;
    hide Step, Run;
    RunFirst(START, first, [second] + Nexts(1, 5, Nexts(0, 4, [])));
    RunFirst(s1, second, Nexts(1, 5, Nexts(0, 4, [])));
    var s3 := NewerInstalls(s2, newer);
    var s4 := OlderInstalls(s3);
    TableOfOne(newer);
  }

  lemma TableOfOne(c: PublishedContainer)
    ensures TableOf([c]) != EMPTY_TABLE
  {
    PathIndexHoldsLast([c], LocationOf(c));
    assert LocationOf([c][0]) == LocationOf(c);
  }

  // ---------- Which refresh stands ----------

  predicate StartsNoRefresh(schedule: seq<Label>) {
    forall l | l in schedule :: !l.action.Refresh?
  }

  predicate Swapping(pc: Pc) {
    pc.SwappingPaths? || pc.SwappingDomains?
  }

  predicate SameTable(pc: Pc, snapshot: seq<PublishedContainer>) {
    pc.Building? || pc.Waiting? || Swapping(pc) ==> TableOf(pc.snapshot) == TableOf(snapshot)
  }

  /** Everyone in the queue behind task `t`, or everyone if it is not there, would install the same table. */
  ghost predicate SameBehind(s: State, t: Task, snapshot: seq<PublishedContainer>) {
    forall j | 0 <= j < |s.queue| && s.queue[j] in s.tasks && t !in s.queue[j..] :: SameTable(s.tasks[s.queue[j]], snapshot)
  }

  /** Task `t` installs the table of its snapshot; nobody is still going to install a different one after it. */
  ghost predicate Stands(s: State, t: Task, snapshot: seq<PublishedContainer>) {
    && t in s.tasks
    && (s.tasks[t].Building? || s.tasks[t].Waiting? || Swapping(s.tasks[t]) || s.tasks[t].Finished?)
    && (!s.tasks[t].Finished? ==> s.tasks[t].snapshot == snapshot)
    && (forall r | r in s.tasks && s.tasks[r].Building? :: SameTable(s.tasks[r], snapshot))
    && (!s.tasks[t].Building? ==> SameBehind(s, t, snapshot))
    && (Swapping(s.tasks[t]) || s.tasks[t].Finished? ==>
          forall r | r in s.tasks && Swapping(s.tasks[r]) :: SameTable(s.tasks[r], snapshot))
    && (s.tasks[t].Finished? ==> s.table == TableOf(snapshot))
  }

  lemma SameBehindOneMore(s: State, s': State, t: Task, snapshot: seq<PublishedContainer>, r: Task)
    requires SameBehind(s, t, snapshot) || r == t
    requires s'.queue == s.queue + [r] && r in s'.tasks && SameTable(s'.tasks[r], snapshot)
    requires forall e | e in s.queue :: e in s.tasks && e in s'.tasks && s'.tasks[e] == s.tasks[e]
    ensures SameBehind(s', t, snapshot)
  {
    hide SameTable;
    forall j | 0 <= j < |s'.queue| && s'.queue[j] in s'.tasks && t !in s'.queue[j..]
      ensures SameTable(s'.tasks[s'.queue[j]], snapshot)
    {
      if j < |s.queue| {
        assert s'.queue[j..] == s.queue[j..] + [r];
        assert r in s'.queue[j..] && t !in s.queue[j..];
        assert s.queue[j] in s.queue;
      }
    }
  }

  lemma SameBehindOneLess(s: State, s': State, t: Task, snapshot: seq<PublishedContainer>)
    requires SameBehind(s, t, snapshot) && s.queue != [] && s'.queue == s.queue[1..]
    requires forall e | e in s'.queue :: e in s.tasks && e in s'.tasks && s'.tasks[e] == s.tasks[e]
    ensures SameBehind(s', t, snapshot)
  {
    hide SameTable;
    forall j | 0 <= j < |s'.queue| && s'.queue[j] in s'.tasks && t !in s'.queue[j..]
      ensures SameTable(s'.tasks[s'.queue[j]], snapshot)
    {
      assert s.queue[1..][j..] == s.queue[j + 1..] && s'.queue[j] == s.queue[j + 1];
      assert s'.queue[j] in s'.queue;
    }
  }

  lemma SameBehindUnmoved(s: State, s': State, t: Task, snapshot: seq<PublishedContainer>)
    requires SameBehind(s, t, snapshot) && s'.queue == s.queue
    requires forall e | e in s.queue :: e in s.tasks && e in s'.tasks && s'.tasks[e] == s.tasks[e]
    ensures SameBehind(s', t, snapshot)
  {
    hide SameTable;
    forall j | 0 <= j < |s'.queue| && s'.queue[j] in s'.tasks && t !in s'.queue[j..]
      ensures SameTable(s'.tasks[s'.queue[j]], snapshot)
    {
      assert s.queue[j] in s.queue;
    }
  }

  /** A step of `r` leaves those behind `t` as they are, but for `r` itself. */
  lemma QueueStepStands(s: State, s': State, t: Task, snapshot: seq<PublishedContainer>, r: Task)
    requires QueueOk(s) && QueueOk(s') && t in s.tasks && r in s.tasks
    requires r in s'.tasks && s'.tasks == s.tasks[r := s'.tasks[r]]
    requires if s.tasks[t].Building? then r == t && s'.queue == s.queue + [t] else SameBehind(s, t, snapshot)
    requires || (s'.queue == s.queue && r !in s.queue)
             || (s'.queue == s.queue + [r] && r !in s.queue && SameTable(s'.tasks[r], snapshot))
             || (s.queue != [] && s.queue[0] == r && s'.queue == s.queue[1..] && r !in s.queue[1..])
    ensures SameBehind(s', t, snapshot)
  {
    hide SameTable, SameBehind, Queues;
    assert forall e | e in s.queue :: e in s.tasks;
    if s'.queue == s.queue + [r] {
      SameBehindOneMore(s, s', t, snapshot, r);
    } else if s'.queue == s.queue {
      SameBehindUnmoved(s, s', t, snapshot);
    } else {
      assert forall e | e in s.queue[1..] :: e in s.queue;
      SameBehindOneLess(s, s', t, snapshot);
    }
  }

  lemma StepStandsBehind(s: State, t: Task, snapshot: seq<PublishedContainer>, r: Task)
    requires QueueOk(s) && Stands(s, t, snapshot) && Step(s, r, Next).Some?
    ensures var s' := Step(s, r, Next).value;
            t in s'.tasks && (!s'.tasks[t].Building? ==> SameBehind(s', t, snapshot))
  {
    hide TableOf, Route, RouteByDomain, RouteByPath, Insert, SameBehind, QueueHolds;
    var s' := Step(s, r, Next).value;
    if !s'.tasks[t].Building? {
      QueueFacts(s, r);
      StepKeepsQueue(s, r, Next);
      QueueStepStands(s, s', t, snapshot, r);
    }
  }

  /** Only one task swaps, and it holds the lock. */
  lemma OneSwaps(s: State, e: Task)
    requires Inv(s) && e in s.tasks && Swapping(s.tasks[e])
    ensures s.writer == Some(e) && s.tasks[e].table == TableOf(s.tasks[e].snapshot)
    ensures s.tasks[e].SwappingDomains? ==> s.table.pathMaps == s.tasks[e].table.pathMaps
  {
    hide TableOf;
    assert TaskOk(s, e, s.tasks[e]);
  }

  lemma StepStands(s: State, t: Task, snapshot: seq<PublishedContainer>, r: Task, act: Action)
    requires Inv(s) && Stands(s, t, snapshot) && Step(s, r, act).Some? && !act.Refresh?
    ensures Stands(Step(s, r, act).value, t, snapshot)
  {
    hide TableOf, Route, RouteByDomain, RouteByPath, Insert, SameBehind, QueueHolds, LockOk, TaskOk;
    var s' := Step(s, r, act).value;
    if act.Next? {
      forall e | e in s.tasks && Swapping(s.tasks[e])
        ensures s.writer == Some(e) && s.tasks[e].table == TableOf(s.tasks[e].snapshot)
        ensures s.tasks[e].SwappingDomains? ==> s.table.pathMaps == s.tasks[e].table.pathMaps
      {
        OneSwaps(s, e);
      }
      StepStandsBehind(s, t, snapshot, r);
      if s.tasks[r].Waiting? && r != t && (Swapping(s.tasks[t]) || s.tasks[t].Finished?) {
        HeadIsBehind(s, t, snapshot, r);
      }
    } else if !s.tasks[t].Building? {
      SameQueueStands(s, s', t, snapshot);
    }
  }

  lemma QueueFacts(s: State, r: Task)
    requires QueueOk(s) && r in s.tasks
    ensures !Queues(s.tasks[r]) ==> r !in s.queue
    ensures s.queue != [] && s.queue[0] == r ==> r !in s.queue[1..]
  {
  }

  /** With `t` out of the queue, everyone in it is behind. */
  lemma HeadIsBehind(s: State, t: Task, snapshot: seq<PublishedContainer>, r: Task)
    requires QueueOk(s) && t in s.tasks && !Queues(s.tasks[t]) && SameBehind(s, t, snapshot) && IsNext(s, r)
    ensures r in s.tasks && SameTable(s.tasks[r], snapshot)
  {
    assert t !in s.queue[0..];
  }

  lemma SameQueueStands(s: State, s': State, t: Task, snapshot: seq<PublishedContainer>)
    requires QueueOk(s) && SameBehind(s, t, snapshot) && s'.queue == s.queue
    requires forall e | e in s.tasks :: e in s'.tasks && s'.tasks[e] == s.tasks[e]
    ensures SameBehind(s', t, snapshot)
  {
  }

  lemma {:induction false} RunStands(s: State, t: Task, snapshot: seq<PublishedContainer>, schedule: seq<Label>)
    requires Inv(s) && Stands(s, t, snapshot) && StartsNoRefresh(schedule) && Run(s, schedule).Some?
    ensures Stands(Run(s, schedule).value, t, snapshot)
    decreases |schedule|
  {
    hide Inv, Step, Stands;
    if schedule != [] {
      var l := schedule[0];
      StepKeepsInv(s, l.task, l.action);
      StepStands(s, t, snapshot, l.task, l.action);
      RunStands(Step(s, l.task, l.action).value, t, snapshot, schedule[1..]);
    }
  }

  /** Nothing another refresh has built is lost while others run. */
  predicate KeepsBuilding(s: State, s': State, except: set<Task>) {
    forall r | r in s.tasks && s.tasks[r].Building? && r !in except :: r in s'.tasks && s'.tasks[r] == s.tasks[r]
  }

  predicate Idle(s: State) {
    s.readers == {} && s.writer.None?
  }

  /** A schedule without new refreshes leads from one state to another. */
  ghost predicate Leads(s: State, schedule: seq<Label>, s': State) {
    StartsNoRefresh(schedule) && Run(s, schedule) == Some(s')
  }

  lemma LeadsFurther(s: State, t: Task, next: State, rest: seq<Label>, s': State)
    requires Step(s, t, Next) == Some(next) && Leads(next, rest, s')
    ensures Leads(s, [Label(t, Next)] + rest, s')
  {
    hide Step;
    RunFirst(s, Label(t, Next), rest);
  }

  lemma {:induction false} LeadsOn(s: State, first: seq<Label>, mid: State, second: seq<Label>, s': State)
    requires Leads(s, first, mid) && Leads(mid, second, s')
    ensures Leads(s, first + second, s')
    decreases |first|
  {
    hide Step;
    if first == [] {
      assert first + second == second;
    } else {
      var l := first[0];
      var next := Step(s, l.task, l.action).value;
      LeadsOn(next, first[1..], mid, second, s');
      assert first + second == [l] + (first[1..] + second);
      RunFirst(s, l, first[1..] + second);
    }
  }

  /** The writer, if any, can finish. */
  lemma WriterFinishes(s: State) returns (schedule: seq<Label>, s': State)
    requires Inv(s)
    ensures Inv(s') && s'.writer.None? && s'.readers == s.readers && s'.queue == s.queue
    ensures Leads(s, schedule, s') && KeepsBuilding(s, s', {})
  {
    hide TableOf, Route, RouteByDomain, RouteByPath, Insert, Inv, TaskOk;
    schedule, s' := [], s;
    if s.writer.Some? {
      var w := s.writer.value;
      WriterIsSwapping(s);
      if s.tasks[w].SwappingPaths? {
        var mid := Step(s, w, Next).value;
        StepKeepsInv(s, w, Next);
        s' := Step(mid, w, Next).value;
        StepKeepsInv(mid, w, Next);
        LeadsFurther(mid, w, s', [], s');
        LeadsFurther(s, w, mid, [Label(w, Next)] + [], s');
        schedule := [Label(w, Next)] + ([Label(w, Next)] + []);
      } else {
        s' := Step(s, w, Next).value;
        StepKeepsInv(s, w, Next);
        LeadsFurther(s, w, s', [], s');
        schedule := [Label(w, Next)] + [];
      }
    }
  }

  lemma WriterIsSwapping(s: State)
    requires Inv(s) && s.writer.Some?
    ensures s.writer.value in s.tasks && Swapping(s.tasks[s.writer.value])
  {
  }

  lemma ReaderIsLooking(s: State, r: Task)
    requires Inv(s) && r in s.readers
    ensures r in s.tasks && (s.tasks[r].LookingUpDomain? || s.tasks[r].LookingUpPath?)
  {
  }

  /** One reader can finish. */
  lemma ReaderLeaves(s: State, r: Task) returns (schedule: seq<Label>, s': State)
    requires Inv(s) && s.writer.None? && r in s.readers
    ensures Inv(s') && s'.writer.None? && s'.readers == s.readers - {r} && s'.queue == s.queue
    ensures Leads(s, schedule, s') && KeepsBuilding(s, s', {})
  {
    hide TableOf, Route, RouteByDomain, RouteByPath, Insert, Inv, TaskOk;
    ReaderIsLooking(s, r);
    var next := Step(s, r, Next).value;
    StepKeepsInv(s, r, Next);
    if r !in next.readers {
      s' := next;
      LeadsFurther(s, r, s', [], s');
      schedule := [Label(r, Next)] + [];
    } else {
      s' := Step(next, r, Next).value;
      StepKeepsInv(next, r, Next);
      LeadsFurther(next, r, s', [], s');
      LeadsFurther(s, r, next, [Label(r, Next)] + [], s');
      schedule := [Label(r, Next)] + ([Label(r, Next)] + []);
    }
  }

  lemma {:induction false} ReadersLeave(s: State) returns (schedule: seq<Label>, s': State)
    requires Inv(s) && s.writer.None?
    ensures Inv(s') && Idle(s') && s'.queue == s.queue && Leads(s, schedule, s') && KeepsBuilding(s, s', {})
    decreases |s.readers|
  {
    hide Inv, Step;
    if s.readers == {} {
      schedule, s' := [], s;
    } else {
      var r :| r in s.readers;
      var first, mid := ReaderLeaves(s, r);
      var rest, last := ReadersLeave(mid);
      LeadsOn(s, first, mid, rest, last);
      schedule, s' := first + rest, last;
    }
  }

  /** A refresh whose turn it is installs its table. */
  lemma HeadInstalls(s: State, t: Task) returns (schedule: seq<Label>, s': State)
    requires Inv(s) && Idle(s) && IsNext(s, t) && t in s.tasks && s.tasks[t].Waiting?
    ensures Inv(s') && Idle(s') && s'.queue == s.queue[1..] && Leads(s, schedule, s') && KeepsBuilding(s, s', {})
    ensures t in s'.tasks && s'.tasks[t].Finished? && s'.table == s.tasks[t].table
  {
    hide TableOf, Route, RouteByDomain, RouteByPath, Insert, Inv;
    var next := Step(s, t, Next).value;
    StepKeepsInv(s, t, Next);
    var mid := Step(next, t, Next).value;
    StepKeepsInv(next, t, Next);
    s' := Step(mid, t, Next).value;
    StepKeepsInv(mid, t, Next);
    LeadsFurther(mid, t, s', [], s');
    LeadsFurther(next, t, mid, [Label(t, Next)] + [], s');
    LeadsFurther(s, t, next, [Label(t, Next)] + ([Label(t, Next)] + []), s');
    schedule := [Label(t, Next)] + ([Label(t, Next)] + ([Label(t, Next)] + []));
  }

  lemma HeadQueues(s: State)
    requires Inv(s) && s.queue != []
    ensures s.queue[0] in s.tasks && Queues(s.tasks[s.queue[0]])
  {
  }

  /** Everyone in the queue can have their turn. */
  lemma {:induction false} QueueDrains(s: State) returns (schedule: seq<Label>, s': State)
    requires Inv(s) && Idle(s)
    ensures Inv(s') && Idle(s') && s'.queue == [] && Leads(s, schedule, s') && KeepsBuilding(s, s', {})
    decreases |s.queue|
  {
    hide Inv, TaskOk, RouteByDomain, RouteByPath, Insert;
    if s.queue == [] {
      schedule, s' := [], s;
    } else {
      var t := s.queue[0];
      HeadQueues(s);
      if s.tasks[t].Waiting? {
        var first, mid := HeadInstalls(s, t);
        var rest, last := QueueDrains(mid);
        LeadsOn(s, first, mid, rest, last);
        schedule, s' := first + rest, last;
      } else {
        var next := Step(s, t, Next).value;
        StepKeepsInv(s, t, Next);
        var first, mid := ReaderLeaves(next, t);
        LeadsFurther(s, t, next, first, mid);
        var rest, last := QueueDrains(mid);
        LeadsOn(s, [Label(t, Next)] + first, mid, rest, last);
        schedule, s' := [Label(t, Next)] + first + rest, last;
      }
    }
  }

  /** With the lock free and nobody waiting, a refresh can build the rest of its table and install it. */
  lemma {:induction false} RefreshFinishes(s: State, t: Task) returns (schedule: seq<Label>, s': State)
    requires Inv(s) && Idle(s) && s.queue == [] && t in s.tasks && s.tasks[t].Building?
    ensures Inv(s') && Idle(s') && s'.queue == [] && Leads(s, schedule, s') && KeepsBuilding(s, s', {t})
    ensures t in s'.tasks && s'.tasks[t].Finished? && s'.table == TableOf(s.tasks[t].snapshot)
    decreases var pc := s.tasks[t]; if pc.Building? then |pc.snapshot| - pc.done else 0
  {
    hide TableOf, Route, RouteByDomain, RouteByPath, Insert, Inv;
    BuildingIsOk(s, t);
    var pc := s.tasks[t];
    var next := Step(s, t, Next).value;
    StepKeepsInv(s, t, Next);
    if pc.done < |pc.snapshot| {
      var rest, last := RefreshFinishes(next, t);
      LeadsFurther(s, t, next, rest, last);
      schedule, s' := [Label(t, Next)] + rest, last;
    } else {
      assert pc.snapshot[..|pc.snapshot|] == pc.snapshot;
      var rest, last := HeadInstalls(next, t);
      LeadsFurther(s, t, next, rest, last);
      schedule, s' := [Label(t, Next)] + rest, last;
    }
  }

  lemma BuildingIsOk(s: State, t: Task)
    requires Inv(s) && t in s.tasks && s.tasks[t].Building?
    ensures var pc := s.tasks[t]; pc.done <= |pc.snapshot| && pc.table == TableOf(pc.snapshot[..pc.done])
  {
    assert TaskOk(s, t, s.tasks[t]);
  }

  /** From any state a refresh can be installed, and after it another that has not queued yet. */
  lemma OvertakenBy(s: State, t: Task, r: Task) returns (schedule: seq<Label>, s': State)
    requires Inv(s) && t in s.tasks && s.tasks[t].Building? && r in s.tasks && s.tasks[r].Building? && r != t
    ensures Leads(s, schedule, s')
    ensures t in s'.tasks && s'.tasks[t].Finished? && s'.table == TableOf(s.tasks[r].snapshot)
  {
    hide Inv, Step, TableOf;
    var a, s1 := WriterFinishes(s);
    var b, s2 := ReadersLeave(s1);
    LeadsOn(s, a, s1, b, s2);
    var c, s3 := QueueDrains(s2);
    LeadsOn(s, a + b, s2, c, s3);
    var d, s4 := RefreshFinishes(s3, t);
    LeadsOn(s, a + b + c, s3, d, s4);
    var e, s5 := RefreshFinishes(s4, r);
    LeadsOn(s, a + b + c + d, s4, e, s5);
    schedule, s' := a + b + c + d + e, s5;
    FinishedStays(s4, t, e);
  }

  lemma {:induction false} FinishedStays(s: State, t: Task, schedule: seq<Label>)
    requires t in s.tasks && s.tasks[t].Finished? && Run(s, schedule).Some?
    ensures t in Run(s, schedule).value.tasks && Run(s, schedule).value.tasks[t].Finished?
    decreases |schedule|
  {
    hide RouteByDomain, RouteByPath, Insert;
    if schedule != [] {
      FinishedStays(Step(s, schedule[0].task, schedule[0].action).value, t, schedule[1..]);
    }
  }

  /** Whenever the new refresh has finished, over any schedule that starts no further one, its table stands. */
  ghost predicate AlwaysStands(s: State, t: Task, snapshot: seq<PublishedContainer>)
    requires t !in s.tasks
  {
    forall schedule, s' | Leads(Step(s, t, Refresh(snapshot)).value, schedule, s')
                          && t in s'.tasks && s'.tasks[t].Finished? ::
      s'.table == TableOf(snapshot)
  }

  /**
   A refresh is sure to stand exactly when no other refresh that would build a different table is still
   building. One that has queued for the lock, or holds it, cannot overtake it.
   */
  lemma NewestStandsExactly(s: State, t: Task, snapshot: seq<PublishedContainer>)
    requires Inv(s) && t !in s.tasks
    ensures AlwaysStands(s, t, snapshot)
            <==> forall r | r in s.tasks && s.tasks[r].Building? :: TableOf(s.tasks[r].snapshot) == TableOf(snapshot)
  {
    hide Inv, TableOf, Leads;
    var s1 := Step(s, t, Refresh(snapshot)).value;
    StepKeepsInv(s, t, Refresh(snapshot));
    if forall r | r in s.tasks && s.tasks[r].Building? :: TableOf(s.tasks[r].snapshot) == TableOf(snapshot) {
      forall schedule, s' | Leads(s1, schedule, s') && t in s'.tasks && s'.tasks[t].Finished?
        ensures s'.table == TableOf(snapshot)
      {
        LeadsKeepsStanding(s1, t, snapshot, schedule, s');
      }
    } else {
      var r :| r in s.tasks && s.tasks[r].Building? && TableOf(s.tasks[r].snapshot) != TableOf(snapshot);
      var schedule, s' := OvertakenBy(s1, t, r);
    }
  }

  lemma LeadsKeepsStanding(s: State, t: Task, snapshot: seq<PublishedContainer>, schedule: seq<Label>, s': State)
    requires Inv(s) && Stands(s, t, snapshot) && Leads(s, schedule, s')
    ensures Stands(s', t, snapshot)
  {
    hide Inv, Stands, Step;
    RunStands(s, t, snapshot, schedule);
  }
}
