/** The Delivery Service object, method by method against the functions of DeliverySpec. */
module DeliveryService {
  import opened Wrappers
  import opened Mls
  import opened DeliverySpec
  import opened PendingBatch

  class Service {
    const mode: Mode
    var groups: map<GroupId, GroupState>
    var log: Log
    var cursors: Cursors
    var inboxes: Inboxes
    var welcomes: map<Name, seq<Welcome>>

    constructor (mode: Mode)
      ensures this.mode == mode
      ensures groups == map[] && log == map[] && cursors == map[] && inboxes == map[] && welcomes == map[]
      ensures Sound()
    {
      this.mode := mode;
      groups, log, cursors, inboxes, welcomes := map[], map[], map[], map[], map[];
    }

    ghost predicate Sound()
      reads this
    {
      InStep(groups, log, cursors)
    }

    method PutGroupState(groupId: GroupId, epoch: nat, members: seq<Name>) returns (result: Result<(), DsError>)
      modifies this`groups
      ensures match PutState(Lookup(old(groups), groupId), epoch, members)
              case Ok(state) => result == Ok(()) && groups == old(groups)[groupId := state]
              case Err(error) => result == Err(error) && groups == old(groups)
      ensures old(Sound()) ==> Sound()
    {
      ghost var was := groups;
      if groupId in groups {
        if epoch != groups[groupId].epoch {
          return Err(EpochMismatch(groups[groupId].epoch, epoch));
        }
        groups := groups[groupId := groups[groupId].(members := members)];
      } else {
        groups := groups[groupId := GroupState(epoch, members)];
      }
      EpochsNeverDecrease(was, groupId, groups[groupId], epoch, members);
      if InStep(was, log, cursors) {
        GroupsInStep(was, groups, log, cursors);
      }
      return Ok(());
    }

    /** The part of a publish that runs under the lock on `groups`. */
    method Accept(groupId: GroupId, epoch: nat) returns (result: Result<seq<Name>, DsError>)
      modifies this`groups
      ensures match AcceptCommit(Lookup(old(groups), groupId), epoch)
              case Ok((state, recipients)) => result == Ok(recipients) && groups == old(groups)[groupId := state]
              case Err(error) => result == Err(error) && groups == old(groups)
    {
      if groupId !in groups {
        return Err(UnknownGroup);
      }
      var state := groups[groupId];
      if epoch != state.epoch {
        return Err(EpochMismatch(state.epoch, epoch));
      }
      groups := groups[groupId := state.(epoch := epoch + 1)];
      return Ok(state.members);
    }

    /** The part that follows, under the lock on the log or on each inbox in turn. */
    method Deliver(groupId: GroupId, commit: LogCommit)
      modifies this`log, this`inboxes
      ensures mode.GroupLog? ==>
                log == old(log)[groupId := QueueAt(old(log), groupId) + [commit]] && inboxes == old(inboxes)
      ensures mode.PerRecipient? ==>
                log == old(log) && inboxes == PushInboxes(old(inboxes), groupId, commit, commit.recipients)
    {
      match mode {
        case PerRecipient =>
          var recipients := commit.recipients;
          for i := 0 to |recipients|
            invariant log == old(log)
            invariant inboxes == PushInboxes(old(inboxes), groupId, commit, recipients[..i])
          {
            assert recipients[..i + 1][..i] == recipients[..i];
            inboxes := PushInbox(inboxes, recipients[i], DeliveryOf(groupId, commit, recipients[i]));
          }
          assert recipients[..|recipients|] == recipients;
        case GroupLog =>
          log := log[groupId := QueueAt(log, groupId) + [commit]];
      }
    }

    method PublishGroupCommit(groupId: GroupId, sender: Name, epoch: nat, commit: Commit)
      returns (result: Result<(), DsError>)
      modifies this`groups, this`log, this`inboxes
      ensures match AcceptCommit(Lookup(old(groups), groupId), epoch)
              case Err(error) =>
                result == Err(error) && groups == old(groups) && log == old(log) && inboxes == old(inboxes)
              case Ok((state, recipients)) =>
                var entry := LogCommit(epoch + 1, sender, recipients, commit);
                && result == Ok(())
                && groups == old(groups)[groupId := state]
                && (mode.GroupLog? ==>
                      log == old(log)[groupId := QueueAt(old(log), groupId) + [entry]] && inboxes == old(inboxes))
                && (mode.PerRecipient? ==>
                      log == old(log) && inboxes == PushInboxes(old(inboxes), groupId, entry, recipients))
      ensures old(Sound()) ==> Sound()
    {
      ghost var was := groups;
      var accepted := Accept(groupId, epoch);
      if accepted.Err? {
        return Err(accepted.error);
      }
      if InStep(was, log, cursors) {
        if mode.GroupLog? {
          LogInStep(was, groups[groupId], log, cursors, groupId, LogCommit(epoch + 1, sender, accepted.value, commit));
        } else {
          EpochsNeverDecrease(was, groupId, groups[groupId], epoch, []);
          GroupsInStep(was, groups, log, cursors);
        }
      }
      Deliver(groupId, LogCommit(epoch + 1, sender, accepted.value, commit));
      return Ok(());
    }

    /**
     The delivery offered in group-log mode: the first unacked commit of each group, and the least epoch
     among those. The groups are visited in an arbitrary order, as a hash map's iterator does.
     */
    method FetchGroupLogCommit(recipient: Name) returns (delivery: Option<Delivery>)
      ensures Offers(GroupLog, log, cursors, inboxes, recipient, delivery)
    {
      var todo := log.Keys;
      var selected: Option<(GroupId, LogCommit)> := None;
      ghost var at: nat := 0;
      while todo != {}
        invariant todo <= log.Keys
        invariant selected.None? ==> forall g, i | g !in todo :: !Unacked(log, cursors, recipient, g, i)
        invariant selected.Some? ==>
                    && Unacked(log, cursors, recipient, selected.value.0, at)
                    && log[selected.value.0][at] == selected.value.1
        invariant selected.Some? && LogAscending(log) ==>
                    forall g, i | g !in todo && Unacked(log, cursors, recipient, g, i) ::
                      selected.value.1.epoch <= log[g][i].epoch
        decreases |todo|
      {
        var groupId :| groupId in todo;
        todo := todo - {groupId};
        var commits, after := log[groupId], CursorOf(cursors, recipient, groupId);
        var first := |commits|;
        for i := 0 to |commits|
          invariant first == |commits|
          invariant forall j | 0 <= j < i :: !Eligible(commits[j], recipient, after)
        {
          if Eligible(commits[i], recipient, after) {
            first := i;
            break;
          }
        }
        if first < |commits| && (selected.None? || commits[first].epoch < selected.value.1.epoch) {
          selected, at := Some((groupId, commits[first])), first;
        }
      }
      if selected.None? {
        return None;
      }
      delivery := Some(DeliveryOf(selected.value.0, selected.value.1, recipient));
    }

    /** An acknowledgement moves one cursor forward, to the epoch of an entry it names, or changes nothing. */
    method AckGroupLogCommit(recipient: Name, id: string) returns (acked: bool)
      modifies this`cursors
      ensures acked <==> exists g, i :: Names(log, recipient, id, g, i)
      ensures !acked ==> cursors == old(cursors)
      ensures acked ==>
                exists g, i :: Names(log, recipient, id, g, i)
                               && cursors == AckCursor(old(cursors), recipient, g, log[g][i].epoch)
      ensures old(Sound()) ==> Sound()
    {
      var todo := log.Keys;
      while todo != {}
        invariant todo <= log.Keys && cursors == old(cursors)
        invariant forall g, i | g !in todo :: !Names(log, recipient, id, g, i)
        decreases |todo|
      {
        var groupId :| groupId in todo;
        todo := todo - {groupId};
        var commits := log[groupId];
        for i := 0 to |commits|
          invariant cursors == old(cursors)
          invariant forall j | 0 <= j < i :: !Names(log, recipient, id, groupId, j)
        {
          if recipient in commits[i].recipients
             && DeliveryId(groupId, commits[i].epoch, commits[i].sender, recipient) == id {
            if Sound() {
              AckInStep(groups, log, cursors, recipient, groupId, i);
            }
            cursors := AckCursor(cursors, recipient, groupId, commits[i].epoch);
            assert Names(log, recipient, id, groupId, i);
            return true;
          }
        }
      }
      return false;
    }

    method PeekCommitInbox(recipient: Name) returns (delivery: Option<Delivery>)
      ensures delivery == Head(inboxes, recipient)
    {
      if recipient !in inboxes || inboxes[recipient] == [] {
        return None;
      }
      return Some(inboxes[recipient][0]);
    }

    /** The delivery a recipient is offered in the mode of the service. */
    method FetchNextPendingCommit(recipient: Name) returns (delivery: Option<Delivery>)
      ensures Offers(mode, log, cursors, inboxes, recipient, delivery)
    {
      match mode {
        case GroupLog => delivery := FetchGroupLogCommit(recipient);
        case PerRecipient => delivery := PeekCommitInbox(recipient);
      }
    }

    method AckCommit(recipient: Name, id: string) returns (acked: bool)
      modifies this`cursors, this`inboxes
      ensures mode.GroupLog? ==> inboxes == old(inboxes) && (acked <==> exists g, i :: Names(log, recipient, id, g, i))
      ensures mode.GroupLog? && !acked ==> cursors == old(cursors)
      ensures mode.GroupLog? && acked ==>
                exists g, i :: Names(log, recipient, id, g, i)
                               && cursors == AckCursor(old(cursors), recipient, g, log[g][i].epoch)
      ensures mode.PerRecipient? ==> cursors == old(cursors) && inboxes == AckInbox(old(inboxes), recipient, id)
      ensures mode.PerRecipient? ==> (acked <==> Holds(QueueAt(old(inboxes), recipient), id))
      ensures old(Sound()) ==> Sound()
    {
      match mode {
        case GroupLog =>
          acked := AckGroupLogCommit(recipient, id);
        case PerRecipient =>
          if recipient !in inboxes {
            return false;
          }
          var before := |inboxes[recipient]|;
          RetainShortens(inboxes[recipient], id);
          inboxes := inboxes[recipient := Retain(inboxes[recipient], id)];
          acked := before != |inboxes[recipient]|;
      }
    }

    method PublishWelcome(recipient: Name, welcome: Welcome)
      modifies this`welcomes
      ensures QueueAt(welcomes, recipient) == QueueAt(old(welcomes), recipient) + [welcome]
      ensures forall r | r != recipient :: QueueAt(welcomes, r) == QueueAt(old(welcomes), r)
    {
      welcomes := welcomes[recipient := QueueAt(welcomes, recipient) + [welcome]];
    }

    /** Unlike a commit, a Welcome leaves its queue when it is fetched. */
    method FetchWelcome(recipient: Name) returns (welcome: Option<Welcome>)
      modifies this`welcomes
      ensures welcome.None? ==> QueueAt(old(welcomes), recipient) == [] && welcomes == old(welcomes)
      ensures welcome.Some? ==> [welcome.value] + QueueAt(welcomes, recipient) == QueueAt(old(welcomes), recipient)
      ensures forall r | r != recipient :: QueueAt(welcomes, r) == QueueAt(old(welcomes), r)
    {
      if recipient !in welcomes || welcomes[recipient] == [] {
        return None;
      }
      var queue := welcomes[recipient];
      welcomes := welcomes[recipient := queue[1..]];
      return Some(queue[0]);
    }

    /** Every unseen commit addressed to the client, group by group in log order, sorted by epoch and group id. */
    method FetchPendingCommits(client: Name, after: nat) returns (batch: seq<Item>)
      ensures Sorted(batch)
      ensures LogAscending(log) ==> forall g :: OfGroup(batch, g) == EligibleOf(QueueAt(log, g), client, after)
    {
      hide Sorted, OfGroup, EligibleOf, Insert, Collected;
      var items := CollectPendingCommits(client, after);
      batch := [];
      SortedNothing();
      assert items[..0] == [];
      for k := 0 to |items|
        invariant Sorted(batch)
        invariant LogAscending(log) ==> forall g :: OfGroup(batch, g) == OfGroup(items[..k], g)
      {
        InsertSorts(batch, items[k]);
        if LogAscending(log) {
          InsertCollected(items, log, client, after, batch, k);
        }
        batch := Insert(batch, items[k]);
      }
      assert items[..|items|] == items;
      CollectedAll(items, log, client, after);
    }

    method CollectPendingCommits(client: Name, after: nat) returns (items: seq<Item>)
      ensures Collected(items, log, {}, client, after)
    {
      items := [];
      var todo := log.Keys;
      while todo != {}
        invariant todo <= log.Keys && Collected(items, log, todo, client, after)
        decreases |todo|
      {
        var groupId :| groupId in todo;
        CollectGroup(items, log, todo, groupId, client, after);
        todo := todo - {groupId};
        items := AppendEligible(items, groupId, log[groupId], client, after);
      }
    }

    static method AppendEligible(items: seq<Item>, groupId: GroupId, commits: seq<LogCommit>, client: Name, after: nat)
      returns (r: seq<Item>)
      ensures r == items + Tagged(groupId, EligibleOf(commits, client, after))
    {
      r := items;
      for i := 0 to |commits|
        invariant r == items + Tagged(groupId, EligibleOf(commits[..i], client, after))
      {
        EligibleSnoc(commits, i, client, after);
        ghost var found := EligibleOf(commits[..i], client, after);
        TaggedSnoc(groupId, found, commits[i]);
        assert items + (Tagged(groupId, found) + [(groupId, commits[i])]) == r + [(groupId, commits[i])];
        if Eligible(commits[i], client, after) {
          r := r + [(groupId, commits[i])];
        }
      }
      assert commits[..|commits|] == commits;
    }
  }
}
