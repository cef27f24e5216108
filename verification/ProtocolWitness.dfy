/** Concrete runs that show why the hypotheses of the theorems are needed. */
module ProtocolWitness {
  import opened Wrappers
  import opened Mls
  import opened Client
  import opened DeliverySpec
  import opened Protocol
  import opened ProtocolInvariant
  import opened ProtocolTheorems
  import opened ProtocolRecipients
  import opened ProtocolReliable

  lemma {:induction false} Extend(world: World, steps: seq<Step>, step: Step)
    requires Legal(world, steps) && Enabled(Run(world, steps), step)
    ensures Legal(world, steps + [step]) && Run(world, steps + [step]) == Next(Run(world, steps), step)
    ensures AtMostOnce(world, steps) && OnceStep(Run(world, steps), step) ==> AtMostOnce(world, steps + [step])
    decreases |steps|
  {
    hide Next, Enabled, OnceStep;
    if steps == [] {
      assert ([] + [step])[1..] == [];
    } else {
      Extend(Next(world, steps[0]), steps[1..], step);
      assert (steps + [step])[1..] == steps[1..] + [step];
    }
  }

  /** The group "a" has registered: epoch 0, one member, the put answered. */
  function Registered(others: set<Name>): World {
    var init := Init("a", others);
    var put := PutRequest("a", 0, ["a"]);
    init.(group := Some(GroupState(0, ["a"])), puts := {put}, putReplies := {put},
          workers := init.workers["a" := init.workers["a"].(control := Idle, synced := true)])
  }

  /** Appends a step to a run whose last state is known. */
  lemma Then(init: World, steps: seq<Step>, at: World, step: Step) returns (longer: seq<Step>)
    requires Legal(init, steps) && Run(init, steps) == at && Enabled(at, step)
    ensures longer == steps + [step] && Legal(init, longer) && Run(init, longer) == Next(at, step)
    ensures AtMostOnce(init, steps) && OnceStep(at, step) ==> AtMostOnce(init, longer)
  {
    Extend(init, steps, step);
    longer := steps + [step];
  }

  lemma RegisteredRun(others: set<Name>) returns (steps: seq<Step>)
    ensures Legal(Init("a", others), steps) && Run(Init("a", others), steps) == Registered(others)
    ensures AtMostOnce(Init("a", others), steps)
  {
    var init := Init("a", others);
    var put := PutRequest("a", 0, ["a"]);
    assert PutOf("a", NewGroup("a")) == put;
    steps := Then(init, [], init, SendPut("a"));
    var sent := init.(puts := {put});
    steps := Then(init, steps, sent, DsPut(put));
    var stored := sent.(group := Some(GroupState(0, ["a"])), putReplies := {put});
    steps := Then(init, steps, stored, PutDone("a"));
  }

  /** A submitted commit is accepted and pushed. */
  lemma PublishRun(init: World, steps: seq<Step>, w: World, c: Commit, members: seq<Name>)
    returns (longer: seq<Step>, w': World)
    requires Legal(init, steps) && Run(init, steps) == w
    requires c in w.submits && w.group == Some(GroupState(c.base, members)) && w.pushing == []
    ensures Legal(init, longer) && Run(init, longer) == w'
    ensures AtMostOnce(init, steps) && !Processed(w, c) ==> AtMostOnce(init, longer)
    ensures w' == w.(group := Some(GroupState(c.base + 1, members)), accepted := w.accepted + [c],
                     log := w.log + [LogCommit(c.base + 1, c.sender, members, c)],
                     confirmed := w.confirmed + {c}, addressed := w.addressed + [w.putEpoch])
  {
    hide Run, Legal, AtMostOnce;
    longer := Then(init, steps, w, DsAccept(c));
    var accepted := Next(w, DsAccept(c));
    longer := Then(init, longer, accepted, DsPush(0));
    w' := Next(accepted, DsPush(0));
    assert accepted.pushing[..0] + accepted.pushing[1..] == [];
  }

  /** The reply to a first attempt is read. */
  lemma ConfirmRun(init: World, steps: seq<Step>, w: World, name: Name) returns (longer: seq<Step>, w': World)
    requires Legal(init, steps) && Run(init, steps) == w && AtMostOnce(init, steps)
    requires name in w.workers && w.workers[name].control.Waiting? && !w.workers[name].control.retry
    requires w.workers[name].control.commit in w.confirmed
    ensures Legal(init, longer) && Run(init, longer) == w' && AtMostOnce(init, longer)
    ensures w' == w.(workers := w.workers[name := w.workers[name].(control := Idle)])
  {
    hide Run, Legal, AtMostOnce;
    longer := Then(init, steps, w, Confirm(name));
    w' := Next(w, Confirm(name));
  }

  /** The only Welcome of an own commit is sent and stored. */
  lemma PostRun(init: World, steps: seq<Step>, w: World, name: Name, recipient: Name, welcome: Welcome)
    returns (longer: seq<Step>, w': World)
    requires Legal(init, steps) && Run(init, steps) == w && AtMostOnce(init, steps)
    requires name in w.workers && w.workers[name].control == Posting(welcome, [recipient]) && w.welcomes == map[]
    ensures Legal(init, longer) && Run(init, longer) == w' && AtMostOnce(init, longer)
    ensures w' == w.(posts := w'.posts, postReplies := w.postReplies + {WelcomePost(recipient, welcome)},
                     welcomes := map[recipient := [welcome]])
  {
    hide Run, Legal, AtMostOnce;
    longer := Then(init, steps, w, SendPost(name, 0));
    var sent := Next(w, SendPost(name, 0));
    longer := Then(init, longer, sent, DsWelcome(WelcomePost(recipient, welcome)));
    w' := Next(sent, DsWelcome(WelcomePost(recipient, welcome)));
    assert QueueAt(sent.welcomes, recipient) + [welcome] == [welcome];
  }

  /** The only stored Welcome is fetched and read. */
  lemma JoinRun(init: World, steps: seq<Step>, w: World, name: Name, welcome: Welcome)
    returns (longer: seq<Step>, w': World)
    requires Legal(init, steps) && Run(init, steps) == w && AtMostOnce(init, steps)
    requires name in w.workers && w.workers[name].control == Idle && QueueAt(w.welcomes, name) == [welcome]
    ensures Legal(init, longer) && Run(init, longer) == w' && AtMostOnce(init, longer)
    ensures w' == w.(welcomes := w'.welcomes,
                     workers := w.workers[name := w.workers[name].(
                       client := ClientState(Some(MlsGroup(welcome.group, None)), None, None, []), synced := false,
                       life := w.workers[name].life + 1)])
  {
    hide Run, Legal, AtMostOnce;
    longer := Then(init, steps, w, Join(name, true));
    w' := Next(w, Join(name, true));
  }

  const SoleUpdate := Commit(0, 0, "a", Update, 0, 0)

  /** "a" alone, at epoch 0. */
  function Alone(staged: Option<Commit>, control: Control, synced: bool): Worker {
    Worker(ClientState(Some(MlsGroup(NewGroup("a"), staged)), staged, None, []), None, control, synced, 0)
  }

  /** "a" has submitted an update. */
  lemma SubmittedAlone(init: World, steps: seq<Step>, w: World, synced: bool) returns (longer: seq<Step>, w': World)
    requires Legal(init, steps) && Run(init, steps) == w
    requires w.nonces == 0 && w.tokens == 0 && w.submits == {} && "a" in w.workers
    requires w.workers["a"] == Alone(None, Idle, synced)
    ensures longer == steps + [Begin("a", SelfUpdate)] && Legal(init, longer) && Run(init, longer) == w'
    ensures w' == w.(submits := {SoleUpdate}, nonces := 1, tokens := 1, syncedCommits := w'.syncedCommits,
                     workers := w.workers["a" := Alone(Some(SoleUpdate),
                                                       Waiting(SoleUpdate, Intent(0, SelfUpdate), false), synced)])
  {
    hide Run, Legal, Merge;
    longer := Then(init, steps, w, Begin("a", SelfUpdate));
    w' := Next(w, Begin("a", SelfUpdate));
  }

  /** The submit is refused, and "a" reads the conflict. */
  lemma RefusedAlone(init: World, steps: seq<Step>, w: World, synced: bool) returns (longer: seq<Step>, w': World)
    requires Legal(init, steps) && Run(init, steps) == w
    requires SoleUpdate in w.submits && AcceptCommit(w.group, 0).Err? && "a" in w.workers
    requires w.workers["a"] ==
             Alone(Some(SoleUpdate), Waiting(SoleUpdate, Intent(0, SelfUpdate), false), synced)
    ensures longer == steps + [DsReject(SoleUpdate)] + [Conflict("a")]
    ensures Legal(init, longer) && Run(init, longer) == w'
    ensures w' == w.(rejected := w.rejected + {SoleUpdate},
                     workers := w.workers["a" := Alone(None, Idle, synced).(queued := Some(Intent(0, SelfUpdate)))])
  {
    hide Run, Legal;
    longer := Then(init, steps, w, DsReject(SoleUpdate));
    var refused := Next(w, DsReject(SoleUpdate));
    longer := Then(init, longer, refused, Conflict("a"));
    w' := Next(refused, Conflict("a"));
  }

  /**
   A commit is accepted, its submit is repeated because the first reply was late, and the conflict reply to
   the repetition makes the sender discard the accepted commit: the sender is stranded at its epoch.
   */
  lemma RepeatedSubmitStrands() returns (steps: seq<Step>)
    ensures Legal(Init("a", {}), steps) && Stranded(Run(Init("a", {}), steps), "a")
  {
    hide Run, Legal;
    var init, w := Init("a", {}), Registered({});
    steps := RegisteredRun({});
    steps, w := SubmittedAlone(init, steps, w, true);
    steps, w := PublishRun(init, steps, w, SoleUpdate, ["a"]);
    steps, w := RefusedAlone(init, steps, w, true);
  }

  /** "a" has given up on registering the group; the request is still under way. */
  lemma UnregisteredRun() returns (steps: seq<Step>, w: World)
    ensures Legal(Init("a", {}), steps) && Run(Init("a", {}), steps) == w
    ensures w == Init("a", {}).(puts := {PutRequest("a", 0, ["a"])},
                                workers := Init("a", {}).workers["a" := Alone(None, Idle, false)])
  {
    hide Run, Legal;
    var init := Init("a", {});
    assert PutOf("a", NewGroup("a")) == PutRequest("a", 0, ["a"]);
    EmptyRun(init);
    steps := Then(init, [], init, SendPut("a"));
    w := Next(init, SendPut("a"));
    steps := Then(init, steps, w, PutFailed("a"));
    w := Next(w, PutFailed("a"));
  }

  lemma EmptyRun(world: World)
    ensures Legal(world, []) && Run(world, []) == world
  {
  }

  /**
   A conflict can also come before the acceptance. The group is not registered yet when the first copy of the
   submit arrives, so it is refused, and the sender rolls back: nothing was accepted and it is not stranded. Then
   the group is registered and a second copy is accepted, which strands the sender without another step of its own.
   */
  lemma EarlyConflictStrands() returns (early: seq<Step>, steps: seq<Step>)
    ensures Legal(Init("a", {}), early) && Run(Init("a", {}), early).accepted == []
    ensures !Stranded(Run(Init("a", {}), early), "a")
    ensures steps == early + [DsPut(PutRequest("a", 0, ["a"]))] + [DsAccept(SoleUpdate)]
    ensures Legal(Init("a", {}), steps) && Stranded(Run(Init("a", {}), steps), "a")
  {
    hide Run, Legal;
    var init, w, put := Init("a", {}), Init("a", {}), PutRequest("a", 0, ["a"]);
    early, w := UnregisteredRun();
    early, w := SubmittedAlone(init, early, w, false);
    early, w := RefusedAlone(init, early, w, false);
    steps := Then(init, early, w, DsPut(put));
    w := Next(w, DsPut(put));
    steps := Then(init, steps, w, DsAccept(SoleUpdate));
  }

  const AddB := Commit(0, 0, "a", Add(["b"]), 0, 0)

  function WelcomeB(): Welcome {
    Welcome(Merge(NewGroup("a"), AddB))
  }

  /** "a" has begun to add "b". */
  lemma BegunRun() returns (steps: seq<Step>, w: World)
    ensures Legal(Init("a", {"b"}), steps) && Run(Init("a", {"b"}), steps) == w
    ensures AtMostOnce(Init("a", {"b"}), steps)
    ensures w.group == Some(GroupState(0, ["a"])) && w.pushing == [] && w.log == [] && w.accepted == []
    ensures w.nonces == 1 && w.tokens == 1 && w.welcomes == map[]
    ensures w.submits == {AddB} && w.syncedCommits == {AddB} && w.confirmed == {} && w.rejected == {}
    ensures w.putEpoch == 0 && w.addressed == []
    ensures w.workers.Keys == {"a", "b"} && w.workers["b"] == NewWorker()
    ensures w.workers["a"].control == Waiting(AddB, Intent(0, AddMembers(["b"])), false)
    ensures w.workers["a"].queued == None && w.workers["a"].life == 0
    ensures w.workers["a"].client ==
            ClientState(Some(MlsGroup(NewGroup("a"), Some(AddB))), Some(AddB), Some(WelcomeB()), ["b"])
  {
    hide Merge, Members;
    w := Registered({"b"});
    steps := RegisteredRun({"b"});
    steps := Then(Init("a", {"b"}), steps, w, Begin("a", AddMembers(["b"])));
    w := Next(w, Begin("a", AddMembers(["b"])));
  }

  /** The commit is in the log and "a" is ready to read it. */
  lemma LoggedRun() returns (steps: seq<Step>, w: World)
    ensures Legal(Init("a", {"b"}), steps) && Run(Init("a", {"b"}), steps) == w
    ensures AtMostOnce(Init("a", {"b"}), steps)
    ensures w.group == Some(GroupState(1, ["a"])) && w.pushing == [] && w.log == [LogCommit(1, "a", ["a"], AddB)]
    ensures w.accepted == [AddB] && w.nonces == 1 && w.tokens == 1 && w.welcomes == map[]
    ensures w.syncedCommits == {AddB} && w.putEpoch == 0 && w.addressed == [0]
    ensures w.submits == {AddB} && w.rejected == {}
    ensures w.workers.Keys == {"a", "b"} && w.workers["b"] == NewWorker() && w.workers["a"].control == Idle
    ensures w.workers["a"].queued == None && w.workers["a"].life == 0
    ensures w.workers["a"].client ==
            ClientState(Some(MlsGroup(NewGroup("a"), Some(AddB))), Some(AddB), Some(WelcomeB()), ["b"])
  {
    hide Init, Merge, Members, Run, Legal, AtMostOnce, Next, Enabled, WelcomeB;
    var init := Init("a", {"b"});
    steps, w := BegunRun();
    steps, w := PublishRun(init, steps, w, AddB, ["a"]);
    steps, w := ConfirmRun(init, steps, w, "a");
  }

  /** "a" receives its own commit from the log. */
  lemma MergedRun() returns (steps: seq<Step>, w: World)
    ensures Legal(Init("a", {"b"}), steps) && Run(Init("a", {"b"}), steps) == w
    ensures AtMostOnce(Init("a", {"b"}), steps)
    ensures w.group == Some(GroupState(1, ["a"])) && w.pushing == [] && w.log == [LogCommit(1, "a", ["a"], AddB)]
    ensures w.accepted == [AddB] && w.nonces == 1 && w.tokens == 1 && w.welcomes == map[]
    ensures w.syncedCommits == {AddB} && w.putEpoch == 0 && w.addressed == [0]
    ensures w.submits == {AddB} && w.rejected == {} && w.workers.Keys == {"a", "b"} && w.workers["b"] == NewWorker()
    ensures w.workers["a"] ==
            Worker(ClientState(Some(MlsGroup(WelcomeB().group, None)), None, None, []), None,
                   Posting(WelcomeB(), ["b"]), false, 0)
  {
    hide Init, Merge, Members, Run, Legal, AtMostOnce;
    steps, w := LoggedRun();
    AddedMembers(AddB);
    steps := Then(Init("a", {"b"}), steps, w, Apply("a", 0));
    w := Next(w, Apply("a", 0));
  }

  /** "a" has merged its commit and stored the Welcome, and has not yet put the new members. */
  lemma AddedRun() returns (steps: seq<Step>, w: World)
    ensures Legal(Init("a", {"b"}), steps) && Run(Init("a", {"b"}), steps) == w
    ensures AtMostOnce(Init("a", {"b"}), steps)
    ensures w.group == Some(GroupState(1, ["a"])) && w.pushing == [] && |w.log| == 1
    ensures w.accepted == [AddB] && w.nonces == 1 && w.tokens == 1
    ensures w.welcomes == map["b" := [WelcomeB()]]
    ensures "b" in w.workers && w.workers["b"] == NewWorker() && w.syncedCommits == {AddB}
    ensures w.log == [LogCommit(1, "a", ["a"], AddB)] && w.submits == {AddB} && w.rejected == {}
    ensures WelcomePost("b", WelcomeB()) in w.postReplies
    ensures "a" in w.workers && w.workers["a"] ==
            Worker(ClientState(Some(MlsGroup(WelcomeB().group, None)), None, None, []), None,
                   Posting(WelcomeB(), ["b"]), false, 0)
    ensures w.putEpoch == 0 && w.addressed == [0]
  {
    hide Init, Merge, Members, Run, Legal, AtMostOnce, Next, Enabled, WelcomeB;
    steps, w := MergedRun();
    steps, w := PostRun(Init("a", {"b"}), steps, w, "a", "b", WelcomeB());
  }

  lemma AddedMembers(commit: Commit)
    requires commit.effect == Add(["b"])
    ensures Members(Merge(NewGroup("a"), commit).leaves) == ["a", "b"]
  {
    assert AddLeaves([Some("a")], ["b"]) == [Some("a"), Some("b")];
    assert Members([Some("a"), Some("b")]) == ["a"] + Members([Some("b")]);
  }

  const UpdateB := Commit(1, 1, "b", Update, 1, 1)

  /** "b" has joined by the Welcome and submitted a commit. */
  lemma JoinedRun() returns (steps: seq<Step>, w: World)
    ensures Legal(Init("a", {"b"}), steps) && Run(Init("a", {"b"}), steps) == w
    ensures AtMostOnce(Init("a", {"b"}), steps)
    ensures w.group == Some(GroupState(1, ["a"])) && w.pushing == [] && |w.log| == 1
    ensures w.accepted == [AddB] && UpdateB in w.submits && w.syncedCommits == {AddB}
    ensures w.putEpoch == 0 && w.addressed == [0]
    ensures "b" in w.workers && w.workers["b"].client.group.Some?
    ensures w.workers["b"].client.group.value.state.epoch == 1
  {
    hide Init, Merge, Members, Run, Legal, AtMostOnce;
    var init := Init("a", {"b"});
    steps, w := AddedRun();
    assert WelcomeB().group.epoch == 1 by {
      FoldStep("a", [AddB], 0);
      assert [AddB][..0] == [] && [AddB][..1] == [AddB];
    }
    steps, w := JoinRun(init, steps, w, "b", WelcomeB());
    steps := Then(init, steps, w, Begin("b", SelfUpdate));
    w := Next(w, Begin("b", SelfUpdate));
  }

  /**
   A member that joined by a Welcome and commits before anyone has put the members of that epoch: its commit is
   accepted for the old members, so it is not addressed to its own sender, which therefore stays at its epoch.
   */
  lemma JoinerCommitMissesItsSender() returns (steps: seq<Step>)
    ensures Legal(Init("a", {"b"}), steps)
    ensures var world := Run(Init("a", {"b"}), steps);
            && |world.log| == |world.accepted| == 2
            && world.log[1].sender == "b" && world.log[1].recipients == ["a"]
            && MembersAt("a", world.accepted, 1) == ["a", "b"]
            && world.addressed == [0, 0] && Unaddressed(world, "b")
  {
    hide Merge, Members, Run, Legal;
    var init, w := Init("a", {"b"}), Init("a", {"b"});
    steps, w := JoinedRun();
    steps, w := PublishRun(init, steps, w, UpdateB, ["a"]);
    assert w.accepted[..0] == [];
    FoldStep("a", w.accepted, 0);
    AddedMembers(AddB);
  }
}
