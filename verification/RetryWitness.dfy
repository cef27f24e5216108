/** A run in which an intent is accepted twice, although every submit is processed exactly once. */
module RetryWitness {
  import opened Wrappers
  import opened Mls
  import opened Client
  import opened DeliverySpec
  import opened Protocol
  import opened ProtocolIntents
  import opened ProtocolReliable
  import opened ProtocolWitness

  /** A run of the group of "a" and "b" in which no submit is processed twice, and where it ends. */
  ghost predicate Reaches(steps: seq<Step>, w: World) {
    && Legal(Init("a", {"b"}), steps) && Run(Init("a", {"b"}), steps) == w
    && AtMostOnce(Init("a", {"b"}), steps)
  }

  lemma On(steps: seq<Step>, w: World, step: Step) returns (longer: seq<Step>)
    requires Reaches(steps, w) && Enabled(w, step) && OnceStep(w, step)
    ensures Reaches(longer, Next(w, step))
  {
    hide Init, Next, Enabled, Run, Legal, AtMostOnce, OnceStep;
    longer := Then(Init("a", {"b"}), steps, w, step);
  }

  // ---- clients that only ever update their keys

  /** In the group, with nothing pending. */
  function Plain(g: Group): ClientState {
    ClientState(Some(MlsGroup(g, None)), None, None, [])
  }

  /** With an own commit pending. */
  function Pending(g: Group, c: Commit): ClientState {
    ClientState(Some(MlsGroup(g, Some(c))), Some(c), None, [])
  }

  /** In the group of "a" and "b", which an update leaves as it is. */
  ghost predicate Pair(g: Group) {
    Members(g.leaves) == ["a", "b"]
  }

  lemma UpdateKeepsPair(g: Group, c: Commit)
    requires Pair(g) && c.effect == Update
    ensures Pair(Merge(g, c)) && Merge(g, c).epoch == g.epoch + 1
  {
  }

  // ---- moves: a few steps with a known outcome

  lemma BeginMove(steps: seq<Step>, w: World, name: Name, g: Group) returns (longer: seq<Step>, w': World, c: Commit)
    requires Reaches(steps, w) && name in w.workers
    requires w.workers[name].control == Idle && w.workers[name].client == Plain(g)
    ensures c == Commit(w.nonces, g.epoch, name, Update, w.tokens, w.workers[name].life)
    ensures Reaches(longer, w')
    ensures w' == w.(submits := w.submits + {c}, nonces := w.nonces + 1, tokens := w.tokens + 1,
                     syncedCommits := w'.syncedCommits,
                     workers := w.workers[name := w.workers[name].(
                       client := Pending(g, c), control := Waiting(c, Intent(w.tokens, SelfUpdate), false))])
  {
    hide Reaches, Merge;
    var step := Begin(name, SelfUpdate);
    c := Commit(w.nonces, g.epoch, name, Update, w.tokens, w.workers[name].life);
    longer := On(steps, w, step);
    w' := Next(w, step);
  }

  lemma PublishMove(steps: seq<Step>, w: World, c: Commit, members: seq<Name>) returns (longer: seq<Step>, w': World)
    requires Reaches(steps, w) && c in w.submits && !Processed(w, c)
    requires w.group == Some(GroupState(c.base, members)) && w.pushing == []
    ensures Reaches(longer, w')
    ensures w' == w.(group := Some(GroupState(c.base + 1, members)), accepted := w.accepted + [c],
                     log := w.log + [LogCommit(c.base + 1, c.sender, members, c)],
                     confirmed := w.confirmed + {c}, addressed := w'.addressed)
  {
    hide Init, Run, Legal, AtMostOnce, Next, Enabled;
    longer, w' := PublishRun(Init("a", {"b"}), steps, w, c, members);
  }

  lemma ConflictMove(steps: seq<Step>, w: World, name: Name, g: Group, c: Commit, intent: Intent)
    returns (longer: seq<Step>, w': World)
    requires Reaches(steps, w) && c in w.submits && !Processed(w, c)
    requires w.group.Some? && w.group.value.epoch != c.base
    requires name in w.workers && w.workers[name].client == Pending(g, c)
    requires w.workers[name].control == Waiting(c, intent, false)
    ensures Reaches(longer, w')
    ensures w' == w.(rejected := w.rejected + {c},
                     workers := w.workers[name := w.workers[name].(
                       client := Plain(g), queued := Some(intent), control := Idle)])
  {
    hide Reaches;
    longer := On(steps, w, DsReject(c));
    var rejected := Next(w, DsReject(c));
    longer := On(longer, rejected, Conflict(name));
    w' := Next(rejected, Conflict(name));
  }

  lemma ApplyMove(steps: seq<Step>, w: World, name: Name, g: Group, index: nat) returns (longer: seq<Step>, w': World)
    requires Reaches(steps, w) && name in w.workers && w.workers[name].control == Idle
    requires index < |w.log| && name in w.log[index].recipients
    requires Pair(g) && name in ["a", "b"]
    requires w.log[index].commit.effect == Update && w.log[index].commit.base == g.epoch
    requires if w.log[index].commit.sender == name then w.workers[name].client == Pending(g, w.log[index].commit)
             else w.workers[name].client == Plain(g)
    ensures Reaches(longer, w')
    ensures w' == w.(workers := w.workers[name := w.workers[name].(
                       client := Plain(Merge(g, w.log[index].commit)), synced := false,
                       control := Putting(w.log[index].commit.sender != name))])
  {
    hide Reaches, Merge, Members;
    UpdateKeepsPair(g, w.log[index].commit);
    longer := On(steps, w, Apply(name, index));
    w' := Next(w, Apply(name, index));
  }

  lemma PutMove(steps: seq<Step>, w: World, name: Name, g: Group, thenRetry: bool) returns (longer: seq<Step>, w': World)
    requires Reaches(steps, w) && name in w.workers && w.workers[name].control == Putting(thenRetry)
    requires w.workers[name].client == Plain(g) && w.group.Some? && w.group.value.epoch == g.epoch
    ensures Reaches(longer, w')
    ensures w' == w.(group := Some(GroupState(g.epoch, Members(g.leaves))), putEpoch := g.epoch, puts := w'.puts,
                     putReplies := w'.putReplies,
                     workers := w.workers[name := w.workers[name].(
                       synced := true, control := if thenRetry then Retrying else Idle)])
  {
    hide Reaches, Members;
    longer := On(steps, w, SendPut(name));
    var sent := Next(w, SendPut(name));
    longer := On(longer, sent, DsPut(PutOf(name, g)));
    var stored := Next(sent, DsPut(PutOf(name, g)));
    longer := On(longer, stored, PutDone(name));
    w' := Next(stored, PutDone(name));
  }

  lemma SkipPutMove(steps: seq<Step>, w: World, name: Name) returns (longer: seq<Step>, w': World)
    requires Reaches(steps, w) && name in w.workers && w.workers[name].control.Putting?
    ensures Reaches(longer, w')
    ensures w' == w.(workers := w.workers[name := w.workers[name].(control := Idle)])
  {
    hide Reaches;
    longer := On(steps, w, PutFailed(name));
    w' := Next(w, PutFailed(name));
  }

  /** A retry of the queued update. */
  lemma RetryMove(steps: seq<Step>, w: World, name: Name, g: Group, token: nat)
    returns (longer: seq<Step>, w': World, c: Commit)
    requires Reaches(steps, w) && name in w.workers && w.workers[name].control == Retrying
    requires w.workers[name].client == Plain(g) && w.workers[name].queued == Some(Intent(token, SelfUpdate))
    ensures c == Commit(w.nonces, g.epoch, name, Update, token, w.workers[name].life)
    ensures Reaches(longer, w')
    ensures w' == w.(submits := w.submits + {c}, nonces := w.nonces + 1, syncedCommits := w'.syncedCommits,
                     workers := w.workers[name := w.workers[name].(
                       client := Pending(g, c), control := Waiting(c, Intent(token, SelfUpdate), true))])
  {
    hide Reaches, Merge;
    c := Commit(w.nonces, g.epoch, name, Update, token, w.workers[name].life);
    longer := On(steps, w, Retry(name));
    w' := Next(w, Retry(name));
  }

  lemma StopWaitingMove(steps: seq<Step>, w: World, name: Name) returns (longer: seq<Step>, w': World)
    requires Reaches(steps, w) && name in w.workers && w.workers[name].control.Waiting?
    ensures Reaches(longer, w')
    ensures w' == w.(workers := w.workers[name := w.workers[name].(control := Idle)])
  {
    hide Reaches;
    longer := On(steps, w, GiveUp(name));
    w' := Next(w, GiveUp(name));
  }

  /** The reply to the only Welcome post is read. */
  lemma PostedMove(steps: seq<Step>, w: World, name: Name, recipient: Name, welcome: Welcome)
    returns (longer: seq<Step>, w': World)
    requires Reaches(steps, w) && name in w.workers && w.workers[name].control == Posting(welcome, [recipient])
    requires WelcomePost(recipient, welcome) in w.postReplies
    ensures Reaches(longer, w')
    ensures w' == w.(workers := w.workers[name := w.workers[name].(control := Putting(false))])
  {
    hide Reaches;
    longer := On(steps, w, PostDone(name, 0));
    var read := Next(w, PostDone(name, 0));
    assert [recipient][..0] + [recipient][1..] == [];
    longer := On(longer, read, PostDone(name, 0));
    w' := Next(read, PostDone(name, 0));
  }

  lemma JoinMove(steps: seq<Step>, w: World, name: Name, welcome: Welcome) returns (longer: seq<Step>, w': World)
    requires Reaches(steps, w) && name in w.workers && w.workers[name].control == Idle
    requires QueueAt(w.welcomes, name) == [welcome]
    ensures Reaches(longer, w')
    ensures w' == w.(welcomes := w'.welcomes,
                     workers := w.workers[name := w.workers[name].(
                       client := Plain(welcome.group), synced := false, life := w.workers[name].life + 1)])
  {
    hide Init, Run, Legal, AtMostOnce, Next, Enabled;
    longer, w' := JoinRun(Init("a", {"b"}), steps, w, name, welcome);
  }

  // ---- the run

  /** Both are in the group at epoch 1, idle, and the service knows both. */
  lemma TwoMembersRun() returns (steps: seq<Step>, w: World, g: Group)
    ensures Reaches(steps, w) && Pair(g) && g.epoch == 1
    ensures w.group == Some(GroupState(1, ["a", "b"])) && w.pushing == [] && w.accepted == [AddB] && w.rejected == {}
    ensures |w.log| == 1 && w.submits == {AddB} && w.nonces == 1 && w.tokens == 1
    ensures w.workers.Keys >= {"a", "b"}
    ensures w.workers["a"] == Worker(Plain(g), None, Idle, true, 0)
    ensures w.workers["b"] == Worker(Plain(g), None, Idle, false, 1)
  {
    hide Reaches, Merge, Members, Init, Run, Legal, AtMostOnce, WelcomeB;
    steps, w := AddedRun();
    AddedReaches(steps, w);
    g := WelcomeB().group;
    WelcomePair();
    steps, w := PostedMove(steps, w, "a", "b", WelcomeB());
    steps, w := PutMove(steps, w, "a", g, false);
    steps, w := JoinMove(steps, w, "b", WelcomeB());
  }

  lemma AddedReaches(steps: seq<Step>, w: World)
    requires Legal(Init("a", {"b"}), steps) && Run(Init("a", {"b"}), steps) == w && AtMostOnce(Init("a", {"b"}), steps)
    ensures Reaches(steps, w)
  {
  }

  lemma WelcomePair()
    ensures WelcomeB().group.epoch == 1 && Pair(WelcomeB().group)
  {
    AddedMembers(AddB);
  }

  /** "b" has won the race at epoch 1; "a" has queued its update and applied the commit of "b". */
  lemma LostRaceRun() returns (steps: seq<Step>, w: World, g1: Group, g2: Group)
    ensures Reaches(steps, w) && Pair(g1) && g1.epoch == 1 && Pair(g2) && g2.epoch == 2
    ensures w.group == Some(GroupState(2, ["a", "b"])) && w.pushing == [] && w.nonces == 3 && w.tokens == 3
    ensures |w.log| == |w.accepted| == 2 && w.log[1].recipients == ["a", "b"]
    ensures var cb := Commit(1, 1, "b", Update, 1, 1);
            && w.log[1].commit == cb && g2 == Merge(g1, cb)
            && w.workers.Keys >= {"a", "b"}
            && w.workers["a"] == Worker(Plain(g2), Some(Intent(2, SelfUpdate)), Retrying, true, 0)
            && w.workers["b"] == Worker(Pending(g1, cb), None, Idle, false, 1)
    ensures forall c | c in w.submits :: c.nonce < 3
    ensures forall c | Processed(w, c) :: c.nonce < 3
  {
    hide Reaches, Merge, Members;
    var ca, cb;
    steps, w, g1 := TwoMembersRun();
    steps, w, cb := BeginMove(steps, w, "b", g1);
    steps, w, ca := BeginMove(steps, w, "a", g1);
    steps, w := PublishMove(steps, w, cb, ["a", "b"]);
    steps, w := ConflictMove(steps, w, "a", g1, ca, Intent(2, SelfUpdate));
    steps, w := StopWaitingMove(steps, w, "b");
    UpdateKeepsPair(g1, cb);
    g2 := Merge(g1, cb);
    steps, w := ApplyMove(steps, w, "a", g1, 1);
    steps, w := PutMove(steps, w, "a", g2, true);
  }

  /** "a" has retried, given up on the reply, and then merged its retry as its own commit; its intent stays queued. */
  lemma AbandonedRun() returns (steps: seq<Step>, w: World, g2: Group, g3: Group)
    ensures Reaches(steps, w) && Pair(g2) && g2.epoch == 2 && Pair(g3) && g3.epoch == 3
    ensures w.group == Some(GroupState(3, ["a", "b"])) && w.pushing == [] && w.nonces == 4 && w.tokens == 3
    ensures var ca := Commit(3, 2, "a", Update, 2, 0);
            && |w.log| == |w.accepted| == 3 && w.accepted[2] == ca && g3 == Merge(g2, ca)
            && w.log[2] == LogCommit(3, "a", ["a", "b"], ca)
            && w.workers.Keys >= {"a", "b"}
            && w.workers["a"] == Worker(Plain(g3), Some(Intent(2, SelfUpdate)), Idle, false, 0)
            && w.workers["b"] == Worker(Plain(g2), None, Idle, false, 1)
    ensures forall c | c in w.submits :: c.nonce < 4
    ensures forall c | Processed(w, c) :: c.nonce < 4
  {
    hide Reaches, Merge, Members;
    var g1, ca;
    steps, w, g1, g2 := LostRaceRun();
    steps, w := ApplyMove(steps, w, "b", g1, 1);
    steps, w := SkipPutMove(steps, w, "b");
    steps, w, ca := RetryMove(steps, w, "a", g2, 2);
    steps, w := StopWaitingMove(steps, w, "a");
    steps, w := PublishMove(steps, w, ca, ["a", "b"]);
    UpdateKeepsPair(g2, ca);
    g3 := Merge(g2, ca);
    steps, w := ApplyMove(steps, w, "a", g2, 2);
    steps, w := SkipPutMove(steps, w, "a");
  }

  /**
   Then "b" commits, and applying that commit makes "a" retry the intent again: it is accepted a second time.
   Every submit of the run was processed at most once.
   */
  lemma AbandonedRetryIsAcceptedTwice() returns (steps: seq<Step>)
    ensures Legal(Init("a", {"b"}), steps) && AtMostOnce(Init("a", {"b"}), steps)
    ensures var accepted := Run(Init("a", {"b"}), steps).accepted;
            && |accepted| == 5 && SameIntent(accepted[2], accepted[4])
            && accepted[2] == Commit(3, 2, "a", Update, 2, 0) && accepted[4] == Commit(5, 4, "a", Update, 2, 0)
  {
    hide Merge, Members, Init, Run, Legal, AtMostOnce;
    var w, g2, g3, cb, ca;
    steps, w, g2, g3 := AbandonedRun();
    steps, w := ApplyMove(steps, w, "b", g2, 2);
    steps, w := SkipPutMove(steps, w, "b");
    steps, w, cb := BeginMove(steps, w, "b", g3);
    steps, w := PublishMove(steps, w, cb, ["a", "b"]);
    UpdateKeepsPair(g3, cb);
    var g4 := Merge(g3, cb);
    steps, w := ApplyMove(steps, w, "a", g3, 3);
    steps, w := PutMove(steps, w, "a", g4, true);
    steps, w, ca := RetryMove(steps, w, "a", g4, 2);
    steps, w := PublishMove(steps, w, ca, ["a", "b"]);
  }
}
