/**
 The hooks of several pushes at once: each sends its commands to podman one after the
 other, and the commands of different hooks interleave in any order.
 */
module Hooks {
  import opened Prelude
  import opened Digests
  import opened Texts
  import opened Paths
  import opened ContainerNames
  import opened Refinement
  import opened Deployment

  type Task = nat

  /** A hook about to send the command of a step, or over. */
  datatype Hook =
    | At(location: ImageLocation, step: Deployment.Step)
    | Ended(location: ImageLocation, result: Result<bool, Deployment.Step>)

  datatype State = State(tags: map<TagKey, Bytes>, podman: Podman, hooks: map<Task, Hook>)

  const START := State(map[], IDLE, map[])

  /** A push to a production tag with its hook, one command and how it turns out, or a container ending. */
  datatype Action =
    | Begin(location: ImageLocation, body: Bytes)
    | Send(outcome: Outcome)
    | End(name: Text, withImage: bool)

  function Moved(s: State, t: Task, podman: Podman, hook: Hook): State {
    s.(podman := podman, hooks := s.hooks[t := hook])
  }

  /** The next step after a command that succeeded, or the end with this step's error. */
  function After(location: ImageLocation, step: Deployment.Step, succeeded: bool, next: Deployment.Step): Hook {
    if succeeded then At(location, next) else Ended(location, Err(step))
  }

  function SendCommand(s: State, localAddr: Text, t: Task, o: Outcome): State
    requires t in s.hooks && s.hooks[t].At?
  {
    var location, p := s.hooks[t].location, s.podman;
    var name, url := ContainerName(location), ImageUrl(localAddr, location);
    var current := Fetch(Serving(s.tags), localAddr, url);
    match s.hooks[t].step
    case Removing => Moved(s, t, Remove(p, name, o), After(location, Removing, o.Succeeds?, LoggingIn))
    case LoggingIn => Moved(s, t, p, After(location, LoggingIn, o.Succeeds?, Pulling))
    case Pulling => Moved(s, t, Pull(p, url, current, o), After(location, Pulling, PullSucceeds(current, o), Inspecting))
    case Inspecting => Moved(s, t, p, After(location, Inspecting, o.Succeeds?, PreparingVolumes))
    case PreparingVolumes => Moved(s, t, p, After(location, PreparingVolumes, o.Succeeds?, Running))
    case Running =>
      Moved(s, t, Start(p, url, name, current, o),
            Ended(location, if RunSucceeds(p, url, name, current, o) then Ok(true) else Err(Running)))
  }

  function Step(s: State, localAddr: Text, t: Task, act: Action): Option<State> {
    match act
    case Begin(location, body) =>
      if t in s.hooks || !NamesFit(location) then None
      else Some(s.(tags := s.tags[TagKey(location, PRODUCTION_TAG) := body],
                   hooks := s.hooks[t := At(location, Removing)]))
    case Send(o) => if t in s.hooks && s.hooks[t].At? then Some(SendCommand(s, localAddr, t, o)) else None
    case End(name, withImage) =>
      var images := if withImage && name in s.podman.containers
                    then s.podman.images - {s.podman.containers[name].image} else s.podman.images;
      Some(s.(podman := Podman(s.podman.containers - {name}, images)))
  }

  datatype Label = Label(task: Task, action: Action)

  function Run(s: State, localAddr: Text, schedule: seq<Label>): Option<State>
    decreases |schedule|
  {
    if schedule == [] then Some(s)
    else
      match Step(s, localAddr, schedule[0].task, schedule[0].action)
      case Some(next) => Run(next, localAddr, schedule[1..])
      case None => None
  }

  lemma FetchesCurrent(s: State, localAddr: Text, location: ImageLocation)
    requires NamesFit(location)
    ensures Fetch(Serving(s.tags), localAddr, ImageUrl(localAddr, location)) == Current(s.tags, location)
  {
    hide Fetch, ImageUrl, Serving, NamesFit;
    ImageUrlFetches(Serving(s.tags), localAddr, location);
    ServesCurrent(s.tags, location);
  }

  /** Whoever runs was pushed. */
  ghost predicate Inv(s: State) {
    forall t | t in s.hooks && s.hooks[t].At? ::
      NamesFit(s.hooks[t].location) && Current(s.tags, s.hooks[t].location).Some?
  }

  lemma StepKeepsInv(s: State, localAddr: Text, t: Task, act: Action)
    requires Inv(s) && Step(s, localAddr, t, act).Some?
    ensures Inv(Step(s, localAddr, t, act).value)
  {
    hide ContainerName, ImageUrl, NamesFit, Remove, Pull, Deployment.Start;
  }

  lemma {:induction false} RunKeepsInv(s: State, localAddr: Text, schedule: seq<Label>)
    requires Inv(s) && Run(s, localAddr, schedule).Some?
    ensures Inv(Run(s, localAddr, schedule).value)
    decreases |schedule|
  {
    hide Inv, Step;
    if schedule != [] {
      StepKeepsInv(s, localAddr, schedule[0].task, schedule[0].action);
      RunKeepsInv(Step(s, localAddr, schedule[0].task, schedule[0].action).value, localAddr, schedule[1..]);
    }
  }

  // ---------- One hook alone ----------

  function OutcomeOf(os: Outcomes, step: Deployment.Step): Outcome {
    match step
    case Removing => os.rm
    case LoggingIn => os.login
    case Pulling => os.pull
    case Inspecting => os.inspect
    case PreparingVolumes => os.volumes
    case Running => os.run
  }

  function Rank(step: Deployment.Step): nat {
    match step
    case Removing => 6
    case LoggingIn => 5
    case Pulling => 4
    case Inspecting => 3
    case PreparingVolumes => 2
    case Running => 1
  }

  function RunAlone(s: State, localAddr: Text, t: Task, os: Outcomes): State
    requires t in s.hooks
    decreases if s.hooks[t].At? then Rank(s.hooks[t].step) else 0
  {
    if s.hooks[t].At? then RunAlone(SendCommand(s, localAddr, t, OutcomeOf(os, s.hooks[t].step)), localAddr, t, os)
    else s
  }

  /** A hook that no other interleaves with is the synchronization of its push. */
  lemma AloneIsSynchronize(s: State, localAddr: Text, t: Task, os: Outcomes)
    requires t in s.hooks && s.hooks[t].At? && s.hooks[t].step.Removing?
    ensures var location := s.hooks[t].location;
            var (podman, result) := Synchronize(s.podman, localAddr, Serving(s.tags),
                                                ManifestReference(location, Tag(PRODUCTION_TAG)), os);
            RunAlone(s, localAddr, t, os) == Moved(s, t, podman, Ended(location, result))
  {
    hide ContainerName, ImageUrl, Remove, Pull, Deployment.Start, PullSucceeds, RunSucceeds;
    var location := s.hooks[t].location;
    var name, url := ContainerName(location), ImageUrl(localAddr, location);
    var s1 := SendCommand(s, localAddr, t, os.rm);
    assert s1.hooks[t] == After(location, Removing, os.rm.Succeeds?, LoggingIn);
    if os.rm.Succeeds? {
      var s2 := SendCommand(s1, localAddr, t, os.login);
      assert RunAlone(s, localAddr, t, os) == RunAlone(s1, localAddr, t, os) == RunAlone(s2, localAddr, t, os);
      if os.login.Succeeds? {
        PulledAlone(s2, localAddr, t, os);
        assert s2 == Moved(s, t, Remove(s.podman, name, os.rm), At(location, Pulling));
        assert forall podman, hook :: Moved(s2, t, podman, hook) == Moved(s, t, podman, hook);
      } else {
        assert s2 == Moved(s, t, Remove(s.podman, name, os.rm), Ended(location, Err(LoggingIn)));
      }
    }
  }

  lemma PulledAlone(s: State, localAddr: Text, t: Task, os: Outcomes)
    requires t in s.hooks && s.hooks[t].At? && s.hooks[t].step.Pulling?
    ensures var location := s.hooks[t].location;
            var name, url := ContainerName(location), ImageUrl(localAddr, location);
            var current := Fetch(Serving(s.tags), localAddr, url);
            var pulled := Pull(s.podman, url, current, os.pull);
            var started := Deployment.Start(pulled, url, name, current, os.run);
            RunAlone(s, localAddr, t, os)
            == if !PullSucceeds(current, os.pull) then
                 Moved(s, t, pulled, Ended(location, Err(Pulling)))
               else if !os.inspect.Succeeds? then Moved(s, t, pulled, Ended(location, Err(Inspecting)))
               else if !os.volumes.Succeeds? then Moved(s, t, pulled, Ended(location, Err(PreparingVolumes)))
               else Moved(s, t, started,
                          Ended(location, if RunSucceeds(pulled, url, name, current, os.run) then Ok(true) else Err(Running)))
  {
    hide ContainerName, ImageUrl, Remove, Pull, Deployment.Start, PullSucceeds, RunSucceeds;
    var location := s.hooks[t].location;
    var s1 := SendCommand(s, localAddr, t, os.pull);
    if s1.hooks[t].At? {
      var s2 := SendCommand(s1, localAddr, t, os.inspect);
      if s2.hooks[t].At? {
        var s3 := SendCommand(s2, localAddr, t, os.volumes);
        if s3.hooks[t].At? {
          var s4 := SendCommand(s3, localAddr, t, os.run);
          assert s4.hooks[t].Ended?;
          assert RunAlone(s3, localAddr, t, os) == s4;
        }
        assert RunAlone(s2, localAddr, t, os) == RunAlone(s3, localAddr, t, os);
      }
      assert RunAlone(s1, localAddr, t, os) == RunAlone(s2, localAddr, t, os);
    }
  }

  // ---------- Names and image URLs ----------

  lemma SlashFreeFronts(a: Text, b: Text, c: Text, d: Text)
    requires '/' !in a && '/' !in c && a + "/" + b == c + "/" + d
    ensures a == c && b == d
  {
    SplitAtSlash(a, b);
    SplitAtSlash(c, d);
    WordIsOnePiece(a);
    WordIsOnePiece(c);
    assert ([a] + Split(b))[0] == a && ([c] + Split(d))[0] == c;
    assert b == (a + "/" + b)[|a| + 1..] && d == (c + "/" + d)[|c| + 1..];
  }

  /** Names without slashes keep image URLs apart. */
  lemma ImageUrlsDiffer(localAddr: Text, a: ImageLocation, b: ImageLocation)
    requires NamesFit(a) && NamesFit(b)
    ensures ImageUrl(localAddr, a) == ImageUrl(localAddr, b) <==> a == b
  {
    if ImageUrl(localAddr, a) == ImageUrl(localAddr, b) {
      var u, v := a.repository + "/" + a.image, b.repository + "/" + b.image;
      var front, back := localAddr + "/", ":" + PRODUCTION_TAG;
      assert ImageUrl(localAddr, a) == front + u + back && ImageUrl(localAddr, b) == front + v + back;
      assert |u| == |v|;
      assert u == (front + u + back)[|front|..|front| + |u|] && v == (front + v + back)[|front|..|front| + |v|];
      SlashFreeFronts(a.repository, a.image, b.repository, b.image);
    }
  }

  // ---------- What the newest push can rely on ----------

  /** The image is pulled; what is started is what podman holds. */
  predicate Pulled(step: Deployment.Step) {
    step.Inspecting? || step.PreparingVolumes? || step.Running?
  }

  /** Whatever this hook may still start under the location's name is the given image of that location. */
  predicate Harmless(s: State, localAddr: Text, hook: Hook, location: ImageLocation, body: Bytes) {
    hook.At? && ContainerName(hook.location) == ContainerName(location) ==>
      var url := ImageUrl(localAddr, hook.location);
      && hook.location == location
      && (Pulled(hook.step) && url in s.podman.images ==> s.podman.images[url] == body)
  }

  /** The hook's removal is behind it, and did not fail. */
  predicate PastRemoval(hook: Hook) {
    match hook
    case At(_, step) => !step.Removing?
    case Ended(_, result) => result != Err(Removing)
  }

  /** The container of the location, if any, runs this body. */
  predicate RunsBody(s: State, localAddr: Text, location: ImageLocation, body: Bytes) {
    RunsOnly(s.podman, ContainerName(location), Container(ImageUrl(localAddr, location), body))
  }

  /** No step of the schedule is a push to the container name. */
  ghost predicate LeavesName(schedule: seq<Label>, name: Text) {
    forall l | l in schedule && l.action.Begin? :: ContainerName(l.action.location) != name
  }

  ghost predicate Safe(s: State, localAddr: Text, t: Task, location: ImageLocation, body: Bytes) {
    && Inv(s) && NamesFit(location)
    && t in s.hooks && s.hooks[t].location == location
    && Current(s.tags, location) == Some(body)
    && (forall r | r in s.hooks :: Harmless(s, localAddr, s.hooks[r], location, body))
    && (PastRemoval(s.hooks[t]) ==> RunsBody(s, localAddr, location, body))
  }

  lemma OtherNameIsApart(s: State, localAddr: Text, r: Task, o: Outcome, location: ImageLocation)
    requires Inv(s) && NamesFit(location) && r in s.hooks && s.hooks[r].At?
    ensures var s' := SendCommand(s, localAddr, r, o);
            var name, url := ContainerName(location), ImageUrl(localAddr, location);
            && s'.tags == s.tags
            && (ContainerName(s.hooks[r].location) != name ==>
                  (name in s'.podman.containers <==> name in s.podman.containers)
                  && (name in s.podman.containers ==> s'.podman.containers[name] == s.podman.containers[name]))
            && (s.hooks[r].location != location ==>
                  (url in s'.podman.images <==> url in s.podman.images)
                  && (url in s.podman.images ==> s'.podman.images[url] == s.podman.images[url]))
  {
    hide ContainerName, ImageUrl;
    ImageUrlsDiffer(localAddr, s.hooks[r].location, location);
  }

  lemma SendKeepsHarmless(s: State, localAddr: Text, r: Task, o: Outcome, location: ImageLocation, body: Bytes, e: Task)
    requires Inv(s) && NamesFit(location) && Current(s.tags, location) == Some(body)
    requires r in s.hooks && s.hooks[r].At? && e in s.hooks
    requires forall x | x in s.hooks :: Harmless(s, localAddr, s.hooks[x], location, body)
    ensures var s' := SendCommand(s, localAddr, r, o); Harmless(s', localAddr, s'.hooks[e], location, body)
  {
    hide ContainerName, ImageUrl, Fetch, Serving, NamesFit;
    FetchesCurrent(s, localAddr, s.hooks[r].location);
    assert Harmless(s, localAddr, s.hooks[r], location, body);
    assert Harmless(s, localAddr, s.hooks[e], location, body);
    if s.hooks[e].At? {
      OtherNameIsApart(s, localAddr, r, o, s.hooks[e].location);
    }
    OtherNameIsApart(s, localAddr, r, o, location);
  }

  lemma SendKeepsBody(s: State, localAddr: Text, t: Task, r: Task, o: Outcome, location: ImageLocation, body: Bytes)
    requires Safe(s, localAddr, t, location, body) && r in s.hooks && s.hooks[r].At?
    ensures var s' := SendCommand(s, localAddr, r, o);
            PastRemoval(s'.hooks[t]) ==> RunsBody(s', localAddr, location, body)
  {
    hide ContainerName, ImageUrl, Fetch, Serving, NamesFit, Current;
    FetchesCurrent(s, localAddr, s.hooks[r].location);
    assert Harmless(s, localAddr, s.hooks[r], location, body);
    OtherNameIsApart(s, localAddr, r, o, location);
  }

  lemma StepKeepsSafe(s: State, localAddr: Text, t: Task, location: ImageLocation, body: Bytes, r: Task, act: Action)
    requires Safe(s, localAddr, t, location, body) && Step(s, localAddr, r, act).Some?
    requires act.Begin? ==> ContainerName(act.location) != ContainerName(location)
    ensures Safe(Step(s, localAddr, r, act).value, localAddr, t, location, body)
  {
    hide ContainerName, ImageUrl, Inv, SendCommand, NamesFit;
    StepKeepsInv(s, localAddr, r, act);
    var s' := Step(s, localAddr, r, act).value;
    if act.Send? {
      forall e | e in s'.hooks
        ensures Harmless(s', localAddr, s'.hooks[e], location, body)
      {
        SendKeepsHooks(s, localAddr, r, act.outcome);
        SendKeepsHarmless(s, localAddr, r, act.outcome, location, body, e);
      }
      SendKeepsBody(s, localAddr, t, r, act.outcome, location, body);
      SendKeepsHooks(s, localAddr, r, act.outcome);
    } else {
      forall e | e in s'.hooks
        ensures Harmless(s', localAddr, s'.hooks[e], location, body)
      {
        assert e in s.hooks ==> Harmless(s, localAddr, s.hooks[e], location, body);
      }
    }
  }

  lemma SendKeepsHooks(s: State, localAddr: Text, r: Task, o: Outcome)
    requires r in s.hooks && s.hooks[r].At?
    ensures var s' := SendCommand(s, localAddr, r, o);
            s'.hooks.Keys == s.hooks.Keys && s'.tags == s.tags
            && forall e | e in s.hooks :: s'.hooks[e].location == s.hooks[e].location
  {
    hide ContainerName, ImageUrl, Remove, Pull, Deployment.Start;
  }

  ghost predicate Leads(s: State, localAddr: Text, schedule: seq<Label>, s': State) {
    Run(s, localAddr, schedule) == Some(s')
  }

  lemma {:induction false} RunKeepsSafe(s: State, localAddr: Text, t: Task, location: ImageLocation, body: Bytes,
                                        schedule: seq<Label>)
    requires Safe(s, localAddr, t, location, body) && Run(s, localAddr, schedule).Some?
    requires LeavesName(schedule, ContainerName(location))
    ensures Safe(Run(s, localAddr, schedule).value, localAddr, t, location, body)
    decreases |schedule|
  {
    hide Safe, Step, ContainerName;
    if schedule != [] {
      var l := schedule[0];
      StepKeepsSafe(s, localAddr, t, location, body, l.task, l.action);
      RunKeepsSafe(Step(s, localAddr, l.task, l.action).value, localAddr, t, location, body, schedule[1..]);
    }
  }

  /**
   The last command succeeds exactly when no container has the name; then it runs what podman held for the image
   URL, or if that was gone, the current manifest. A name in use is never taken from its container.
   */
  lemma NamesInUseAreRefused(s: State, localAddr: Text, t: Task, o: Outcome)
    requires Inv(s) && t in s.hooks && s.hooks[t].At? && s.hooks[t].step.Running?
    ensures var location := s.hooks[t].location;
            var name, url := ContainerName(location), ImageUrl(localAddr, location);
            var s' := SendCommand(s, localAddr, t, o);
            var image := if url in s.podman.images then s.podman.images[url] else Current(s.tags, location).value;
            && Current(s.tags, location).Some?
            && s'.hooks[t].Ended?
            && (s'.hooks[t].result == Ok(true) <==> o.Succeeds? && name !in s.podman.containers)
            && (s'.hooks[t].result != Ok(true) ==> s'.hooks[t].result == Err(Running))
            && (name in s.podman.containers ==> s'.podman.containers == s.podman.containers)
            && (name !in s.podman.containers ==>
                  s'.podman.containers
                  == if o.FailsUndone? then s.podman.containers
                     else s.podman.containers[name := Container(url, image)])
            && (!o.FailsUndone? ==> url in s'.podman.images && s'.podman.images[url] == image)
  {
    hide ContainerName, ImageUrl, Fetch, Serving, NamesFit;
    FetchesCurrent(s, localAddr, s.hooks[t].location);
  }

  /** No step of the schedule removes or ends the container of a name. */
  ghost predicate Spares(s: State, localAddr: Text, schedule: seq<Label>, name: Text)
    decreases |schedule|
  {
    schedule != [] ==>
      var l := schedule[0];
      && !(l.action.End? && l.action.name == name)
      && !(l.action.Send? && l.task in s.hooks && s.hooks[l.task].At? && s.hooks[l.task].step.Removing?
           && ContainerName(s.hooks[l.task].location) == name && !l.action.outcome.FailsUndone?)
      && (match Step(s, localAddr, l.task, l.action)
          case Some(next) => Spares(next, localAddr, schedule[1..], name)
          case None => true)
  }

  /** Whatever else hooks do, a container stays as it is until it is removed or ends. */
  lemma {:induction false} ContainersStand(s: State, localAddr: Text, schedule: seq<Label>, name: Text)
    requires Run(s, localAddr, schedule).Some? && Spares(s, localAddr, schedule, name) && name in s.podman.containers
    ensures var s' := Run(s, localAddr, schedule).value;
            name in s'.podman.containers && s'.podman.containers[name] == s.podman.containers[name]
    decreases |schedule|
  {
    hide ContainerName, Step;
    if schedule != [] {
      var l := schedule[0];
      StepSpares(s, localAddr, l, name);
      ContainersStand(Step(s, localAddr, l.task, l.action).value, localAddr, schedule[1..], name);
    }
  }

  lemma StepSpares(s: State, localAddr: Text, l: Label, name: Text)
    requires Step(s, localAddr, l.task, l.action).Some? && name in s.podman.containers
    requires !(l.action.End? && l.action.name == name)
    requires !(l.action.Send? && l.task in s.hooks && s.hooks[l.task].At? && s.hooks[l.task].step.Removing?
               && ContainerName(s.hooks[l.task].location) == name && !l.action.outcome.FailsUndone?)
    ensures var s' := Step(s, localAddr, l.task, l.action).value;
            name in s'.podman.containers && s'.podman.containers[name] == s.podman.containers[name]
  {
    hide ContainerName, ImageUrl, Fetch, Serving, NamesFit;
  }

  // ---------- The race ----------

  lemma LeadsFurther(s: State, localAddr: Text, t: Task, next: State, rest: seq<Label>, s': State)
    requires Step(s, localAddr, t, Send(Succeeds)) == Some(next) && Leads(next, localAddr, rest, s')
    ensures Leads(s, localAddr, [Label(t, Send(Succeeds))] + rest, s')
  {
    hide Step;
    assert ([Label(t, Send(Succeeds))] + rest)[1..] == rest;
  }

  predicate OnlySends(schedule: seq<Label>) {
    forall l | l in schedule :: l.action.Send?
  }

  /** With the name free, a hook whose commands all succeed ends up starting its image. */
  lemma {:induction false} HookStarts(s: State, localAddr: Text, r: Task) returns (schedule: seq<Label>, s': State)
    requires Inv(s) && r in s.hooks && s.hooks[r].At? && ContainerName(s.hooks[r].location) !in s.podman.containers
    ensures Leads(s, localAddr, schedule, s') && OnlySends(schedule)
    ensures s'.hooks.Keys == s.hooks.Keys && forall e | e in s.hooks && e != r :: s'.hooks[e] == s.hooks[e]
    ensures var location := s.hooks[r].location;
            var name, url := ContainerName(location), ImageUrl(localAddr, location);
            && Current(s.tags, location).Some?
            && name in s'.podman.containers
            && s'.podman.containers[name]
               == Container(url, if Pulled(s.hooks[r].step) && url in s.podman.images then s.podman.images[url]
                                else Current(s.tags, location).value)
    decreases Rank(s.hooks[r].step)
  {
    hide ContainerName, ImageUrl, Fetch, Serving, NamesFit;
    FetchesCurrent(s, localAddr, s.hooks[r].location);
    var next := SendCommand(s, localAddr, r, Succeeds);
    StepKeepsInv(s, localAddr, r, Send(Succeeds));
    if s.hooks[r].step.Running? {
      LeadsFurther(s, localAddr, r, next, [], next);
      schedule, s' := [Label(r, Send(Succeeds))] + [], next;
    } else {
      var rest, last := HookStarts(next, localAddr, r);
      LeadsFurther(s, localAddr, r, next, rest, last);
      schedule, s' := [Label(r, Send(Succeeds))] + rest, last;
    }
  }

  /** Whenever the new hook is past its removal, over any schedule without another push to that container name. */
  ghost predicate AlwaysRunsBody(s: State, localAddr: Text, t: Task, location: ImageLocation, body: Bytes)
    requires t !in s.hooks && NamesFit(location)
  {
    forall schedule, s' | Leads(Step(s, localAddr, t, Begin(location, body)).value, localAddr, schedule, s')
                          && LeavesName(schedule, ContainerName(location))
                          && t in s'.hooks && PastRemoval(s'.hooks[t]) ::
      RunsBody(s', localAddr, location, body)
  }

  lemma ThreatStarts(s: State, localAddr: Text, t: Task, location: ImageLocation, body: Bytes, r: Task)
    returns (schedule: seq<Label>, s': State)
    requires Inv(s) && NamesFit(location) && t in s.hooks && s.hooks[t] == At(location, Removing)
    requires r in s.hooks && r != t && !Harmless(s, localAddr, s.hooks[r], location, body)
    ensures Leads(s, localAddr, schedule, s') && OnlySends(schedule)
    ensures t in s'.hooks && PastRemoval(s'.hooks[t]) && !RunsBody(s', localAddr, location, body)
  {
    hide ContainerName, ImageUrl, Leads, Current;
    var next := SendCommand(s, localAddr, t, Succeeds);
    StepKeepsInv(s, localAddr, t, Send(Succeeds));
    ImageUrlsDiffer(localAddr, s.hooks[r].location, location);
    var rest, last := HookStarts(next, localAddr, r);
    LeadsFurther(s, localAddr, t, next, rest, last);
    schedule, s' := [Label(t, Send(Succeeds))] + rest, last;
  }

  lemma SendsLeaveNames(schedule: seq<Label>, name: Text)
    requires OnlySends(schedule)
    ensures LeavesName(schedule, name)
  {
  }

  /**
   A push can rely on its container running nothing but its manifest, from its removal on, exactly when
   no other hook of that container name is under way that has pulled a different image, still there, or
   is of another location.
   */
  lemma PushStandsExactly(s: State, localAddr: Text, t: Task, location: ImageLocation, body: Bytes)
    requires Inv(s) && t !in s.hooks && NamesFit(location)
    ensures AlwaysRunsBody(s, localAddr, t, location, body)
            <==> forall r | r in s.hooks :: Harmless(s, localAddr, s.hooks[r], location, body)
  {
    hide Inv, Harmless, Safe, Leads, LeavesName, RunsBody, PastRemoval, ContainerName, Run;
    var s1 := Step(s, localAddr, t, Begin(location, body)).value;
    StepKeepsInv(s, localAddr, t, Begin(location, body));
    if forall r | r in s.hooks :: Harmless(s, localAddr, s.hooks[r], location, body) {
      BeginIsSafe(s, localAddr, t, location, body);
      forall schedule, s' | Leads(s1, localAddr, schedule, s') && LeavesName(schedule, ContainerName(location))
                            && t in s'.hooks && PastRemoval(s'.hooks[t])
        ensures RunsBody(s', localAddr, location, body)
      {
        LeadsKeepsSafe(s1, localAddr, t, location, body, schedule, s');
      }
    } else {
      var r :| r in s.hooks && !Harmless(s, localAddr, s.hooks[r], location, body);
      SameImagesSameHarm(s, s1, localAddr, s.hooks[r], location, body);
      var schedule, s' := ThreatStarts(s1, localAddr, t, location, body, r);
      SendsLeaveNames(schedule, ContainerName(location));
    }
  }

  lemma SameImagesSameHarm(s: State, s': State, localAddr: Text, hook: Hook, location: ImageLocation, body: Bytes)
    requires s'.podman == s.podman
    ensures Harmless(s', localAddr, hook, location, body) == Harmless(s, localAddr, hook, location, body)
  {
  }

  lemma BeginIsSafe(s: State, localAddr: Text, t: Task, location: ImageLocation, body: Bytes)
    requires Inv(s) && t !in s.hooks && NamesFit(location)
    requires forall r | r in s.hooks :: Harmless(s, localAddr, s.hooks[r], location, body)
    ensures Safe(Step(s, localAddr, t, Begin(location, body)).value, localAddr, t, location, body)
  {
    hide ContainerName, ImageUrl, Inv;
    StepKeepsInv(s, localAddr, t, Begin(location, body));
    var s1 := Step(s, localAddr, t, Begin(location, body)).value;
    forall r | r in s1.hooks
      ensures Harmless(s1, localAddr, s1.hooks[r], location, body)
    {
      assert r != t ==> Harmless(s, localAddr, s.hooks[r], location, body);
    }
  }

  lemma LeadsKeepsSafe(s: State, localAddr: Text, t: Task, location: ImageLocation, body: Bytes, schedule: seq<Label>,
                       s': State)
    requires Safe(s, localAddr, t, location, body) && Leads(s, localAddr, schedule, s')
    requires LeavesName(schedule, ContainerName(location)) && t in s'.hooks && PastRemoval(s'.hooks[t])
    ensures RunsBody(s', localAddr, location, body)
  {
    hide ContainerName, Run, LeavesName, Inv, Harmless;
    RunKeepsSafe(s, localAddr, t, location, body, schedule);
  }

  /** A push whose image is pulled but not started yet. */
  function HalfWay(localAddr: Text, location: ImageLocation, body: Bytes): seq<Label> {
    [Label(0, Begin(location, body))]
    + ([Label(0, Send(Succeeds))] + ([Label(0, Send(Succeeds))] + ([Label(0, Send(Succeeds))] + [])))
  }

  /** So a push that comes while an older one is half-way can end with the older image running. */
  lemma OlderPushCanWin(localAddr: Text, location: ImageLocation, older: Bytes, newer: Bytes)
    requires NamesFit(location) && older != newer
    ensures Run(START, localAddr, HalfWay(localAddr, location, older)).Some?
    ensures var s := Run(START, localAddr, HalfWay(localAddr, location, older)).value;
            1 !in s.hooks && !AlwaysRunsBody(s, localAddr, 1, location, newer)
  {
    hide ContainerName, ImageUrl, AlwaysRunsBody, Fetch, Serving;
    var send := Label(0, Send(Succeeds));
    var s1 := Step(START, localAddr, 0, Begin(location, older)).value;
    var s2 := SendCommand(s1, localAddr, 0, Succeeds);
    var s3 := SendCommand(s2, localAddr, 0, Succeeds);
    var s4 := SendCommand(s3, localAddr, 0, Succeeds);
    FetchesCurrent(s3, localAddr, location);
    assert Current(s1.tags, location) == Some(older);
    assert s4.hooks == map[0 := At(location, Inspecting)];
    assert s4.podman.images == map[ImageUrl(localAddr, location) := older];
    assert !Harmless(s4, localAddr, s4.hooks[0], location, newer);
    hide SendCommand;
    LeadsFurther(s3, localAddr, 0, s4, [], s4);
    LeadsFurther(s2, localAddr, 0, s3, [send] + [], s4);
    LeadsFurther(s1, localAddr, 0, s2, [send] + ([send] + []), s4);
    assert HalfWay(localAddr, location, older)[1..] == [send] + ([send] + ([send] + []));
    RunKeepsInv(START, localAddr, HalfWay(localAddr, location, older));
    PushStandsExactly(s4, localAddr, 1, location, newer);
  }
}
