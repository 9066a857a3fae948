/** Which batch a row is linked to, and so which checks an acknowledgement works through.  A trigger does not
    leave out rows that are in a batch already: a later one moves them to its own, and an acknowledgement
    writes the link again when it has completed a row. */
module BatchLinks {
  import opened States
  import opened Tables
  import opened Operations
  import opened Handlers
  import opened System
  import opened Invariant
  import opened History
  import opened Acknowledgement

  /** The batch to which this action links the transfer, if it does. */
  function LinkOf(s: System, a: Action, t: TransferId): Option<BatchId> {
    match a
    case LinkRow(u, b) => if u == t && MayLink(s, u, b) then Some(b) else None
    case Turn(pid, _, fault) =>
      if pid < |s.procs| && fault != Refused && t < |s.db.rows|
      then CallLinks(s.db, NextCall(s.procs[pid]), t) else None
    case Begin(_) => None
    case OpenBatch(_) => None
    case MarkSubmitted(_) => None
  }

  function CallLinks(db: Db, call: Call, t: TransferId): Option<BatchId> {
    if call.SetSettlementBatch? && call.t == t && call.b < |db.batches| then Some(call.b) else None
  }

  /** The batch to which the transfer was linked last in the course of the actions. */
  function LastLink(s: System, actions: seq<Action>, t: TransferId): Option<BatchId> {
    if actions == [] then None
    else
      var init := actions[..|actions| - 1];
      var link := LinkOf(Run(s, init), actions[|actions| - 1], t);
      if link.Some? then link else LastLink(s, init, t)
  }

  function BatchOf(s: System, t: TransferId): Option<BatchId> {
    if t < |s.db.rows| then s.db.rows[t].batch else None
  }

  lemma {:induction false} BatchWhenPerformed(db: Db, call: Call, answer: Answer, t: TransferId)
    ensures var rows := Perform(db, call, answer).0.rows;
      t < |rows| ==> rows[t].batch == if t >= |db.rows| then None
                                      else if CallLinks(db, call, t).Some? then CallLinks(db, call, t)
                                      else db.rows[t].batch
  {
  }

  lemma {:induction false} BatchAfterAction(s: System, a: Action, t: TransferId)
    requires t < |Apply(s, a).db.rows|
    ensures BatchOf(Apply(s, a), t) == if LinkOf(s, a, t).Some? then LinkOf(s, a, t) else BatchOf(s, t)
  {
    if a.Turn? && a.pid < |s.procs| {
      BatchWhenPerformed(s.db, NextCall(s.procs[a.pid]), a.answer, t);
    }
  }

  lemma {:induction false} LinksFollow(s: System, actions: seq<Action>, t: TransferId)
    requires t < |Run(s, actions).db.rows|
    ensures BatchOf(Run(s, actions), t)
      == if LastLink(s, actions, t).Some? then LastLink(s, actions, t) else BatchOf(s, t)
  {
    if actions != [] {
      var init, a := actions[..|actions| - 1], actions[|actions| - 1];
      RunLast(s, actions);
      BatchAfterAction(Run(s, init), a, t);
      if t < |Run(s, init).db.rows| {
        LinksFollow(s, init, t);
      } else {
        UnmadeIsUnlinked(s, init, t);
      }
    }
  }

  lemma {:induction false} UnmadeIsUnlinked(s: System, actions: seq<Action>, t: TransferId)
    requires t >= |Run(s, actions).db.rows|
    ensures t >= |s.db.rows| && LastLink(s, actions, t) == None
  {
    if actions != [] {
      var init := actions[..|actions| - 1];
      RunLast(s, actions);
      RowsGrow(Run(s, init), actions[|actions| - 1]);
      UnmadeIsUnlinked(s, init, t);
    }
  }

  lemma {:induction false} RowsGrow(s: System, a: Action)
    ensures |s.db.rows| <= |Apply(s, a).db.rows|
  {
    if a.Turn? && a.pid < |s.procs| {
      LinksAfterCall(s.db, NextCall(s.procs[a.pid]), a.answer, a.fault);
    }
  }

  /** The rows linked to a batch. */
  ghost predicate AreLinked(s: System, b: BatchId, file: set<TransferId>) {
    forall t: TransferId :: t in file <==> BatchOf(s, t) == Some(b)
  }

  /** Every transfer that is linked anew in the course of the actions is linked last to b exactly when it
      belongs to the file. */
  ghost predicate KeepsLinks(s: System, actions: seq<Action>, b: BatchId, file: set<TransferId>) {
    forall t: TransferId :: LastLink(s, actions, t).Some? ==> (LastLink(s, actions, t) == Some(b) <==> t in file)
  }

  /** What an acknowledgement reads when it asks for the transfers of a batch whose file had certain checks:
      in every interleaving with further triggers and other acknowledgements, exactly those checks exactly
      when no later link took one away or brought another in; then also as many as the batch records. */
  lemma {:induction false} ListsItsFileExactly(
    s: System, more: seq<Action>, b: BatchId, file: set<TransferId>, ids: seq<TransferId>)
    requires AreLinked(s, b, file) && IsLinkedListing(Run(s, more).db.rows, b, ids)
    ensures (forall t :: t in ids <==> t in file) <==> KeepsLinks(s, more, b, file)
    ensures KeepsLinks(s, more, b, file) ==> |ids| == |file|
  {
    var rows := Run(s, more).db.rows;
    forall t: TransferId
      ensures t in ids <==> if LastLink(s, more, t).Some? then LastLink(s, more, t) == Some(b) else t in file
    {
      assert t in ids <==> BatchOf(Run(s, more), t) == Some(b);
      if t < |rows| {
        LinksFollow(s, more, t);
      } else {
        UnmadeIsUnlinked(s, more, t);
      }
    }
    if KeepsLinks(s, more, b, file) {
      DistinctAreCounted(ids, file);
    }
  }

  lemma {:induction false} DistinctAreCounted(ids: seq<TransferId>, file: set<TransferId>)
    requires forall i, j :: 0 <= i < j < |ids| ==> ids[i] != ids[j]
    requires forall t :: t in ids <==> t in file
    ensures |ids| == |file|
  {
    if ids != [] {
      var init, last := ids[..|ids| - 1], ids[|ids| - 1];
      assert ids == init + [last];
      DistinctAreCounted(init, file - {last});
    } else {
      assert file == {};
    }
  }

  // ---- which rows an acknowledgement completes ----

  /** The list of an acknowledgement has been read. */
  predicate HasListed(p: Proc) {
    p.Acknowledge? && !p.apc.ALoad? && !p.apc.AList?
  }

  /** Rows are completed by acknowledgements, each from its own list. */
  ghost predicate CompletionOk(s: System, w: Win) {
    w.to == Completed ==>
      && w.from == FundsPosted && w.actor == BySettlement
      && w.pid < |s.procs| && HasListed(s.procs[w.pid]) && w.t in s.procs[w.pid].ids
  }

  ghost predicate CompletionsOk(s: System) {
    forall i :: 0 <= i < |s.wins| ==> CompletionOk(s, s.wins[i])
  }

  lemma {:induction false} ListsStay(p: Proc, r: Reply)
    requires HasListed(p)
    ensures HasListed(Resume(p, r)) && Resume(p, r).ids == p.ids && Resume(p, r).b == p.b
  {
  }

  lemma {:induction false} CompletionsByAcknowledgements(p: Proc)
    ensures var call := NextCall(p);
      call.UpdateState? && call.to == Completed ==>
        call.from == FundsPosted && ActorOf(p) == BySettlement && HasListed(p) && call.t in p.ids
  {
    match p
    case Deposit(_, _, _, _, _) =>
    case Operator(_, _, _, _, _, _, _) =>
    case Return(_, _, _, _, _) =>
    case Acknowledge(_, _, _, _, _, _) =>
  }

  /** A process that has read its list keeps it, whoever acts. */
  lemma {:induction false} ListedThroughAction(s: System, a: Action, pid: nat)
    requires pid < |s.procs| && HasListed(s.procs[pid])
    ensures var s' := Apply(s, a);
      && pid < |s'.procs| && HasListed(s'.procs[pid])
      && s'.procs[pid].ids == s.procs[pid].ids && s'.procs[pid].b == s.procs[pid].b
  {
    if a.Turn? && a.pid == pid {
      ListsStay(s.procs[pid], Execute(s.db, NextCall(s.procs[pid]), a.answer, a.fault).1);
    }
  }

  lemma {:induction false} ApplyKeepsCompletions(s: System, a: Action)
    requires CompletionsOk(s)
    ensures CompletionsOk(Apply(s, a))
  {
    var s' := Apply(s, a);
    forall i | 0 <= i < |s'.wins| ensures CompletionOk(s', s'.wins[i]) {
      if i < |s.wins| {
        assert s'.wins[i] == s.wins[i] && CompletionOk(s, s.wins[i]);
        if s.wins[i].to == Completed {
          ListedThroughAction(s, a, s.wins[i].pid);
        }
      } else {
        CompletionsByAcknowledgements(s.procs[a.pid]);
        if s'.wins[i].to == Completed {
          ListedThroughAction(s, a, a.pid);
        }
      }
    }
  }

  lemma {:induction false} RunKeepsCompletions(s: System, actions: seq<Action>)
    requires Initial(s)
    ensures CompletionsOk(Run(s, actions))
  {
    if actions != [] {
      RunKeepsCompletions(s, actions[..|actions| - 1]);
      RunLast(s, actions);
      ApplyKeepsCompletions(Run(s, actions[..|actions| - 1]), actions[|actions| - 1]);
    }
  }

  lemma {:induction false} ListedThroughRun(s: System, actions: seq<Action>, pid: nat)
    requires pid < |s.procs| && HasListed(s.procs[pid])
    ensures var s' := Run(s, actions);
      && pid < |s'.procs| && HasListed(s'.procs[pid])
      && s'.procs[pid].ids == s.procs[pid].ids && s'.procs[pid].b == s.procs[pid].b
  {
    if actions != [] {
      ListedThroughRun(s, actions[..|actions| - 1], pid);
      RunLast(s, actions);
      ListedThroughAction(Run(s, actions[..|actions| - 1]), actions[|actions| - 1], pid);
    }
  }

  /** The process is about to read the list of a batch that is not acknowledged yet. */
  ghost predicate AboutToList(s: System, pid: nat, b: BatchId, ids: seq<TransferId>) {
    && pid < |s.procs| && s.procs[pid].Acknowledge? && s.procs[pid].b == b
    && s.procs[pid].apc.AList? && s.procs[pid].apc.status != Acknowledged
    && IsLinkedListing(s.db.rows, b, ids)
  }

  /** The process has come to the end of its loop, and no update of its failed for want of the database. */
  predicate LoopDone(s: System, pid: nat) {
    && pid < |s.procs| && s.procs[pid].Acknowledge? && s.procs[pid].apc == AHalt(None)
    && s.procs[pid].next >= |s.procs[pid].ids| && s.procs[pid].faulted == {}
  }

  predicate IsSettled(s: System, t: TransferId) {
    t < |s.db.rows| && (s.db.rows[t].state == Completed || s.db.rows[t].state == Returned)
  }

  /** When does an acknowledgement complete exactly the checks of its batch's file?  The rows linked to the
      batch are those of the file; then anything happens, triggers that list them again included; then the
      acknowledgement reads its list, and goes on, interleaved with anything, to the end of its loop.  It
      leaves every row of its list Completed or Returned and has completed no other; and the list is the file
      exactly when no later link took a check away or brought one in. */
  lemma {:induction false} CompletesItsFileExactly(
    s: System, first: seq<Action>, b: BatchId, file: set<TransferId>, more: seq<Action>, pid: nat,
    ids: seq<TransferId>, rest: seq<Action>)
    requires Initial(s) && AreLinked(Run(s, first), b, file)
    requires AboutToList(Run(s, first + more), pid, b, ids)
    requires LoopDone(Run(s, first + more + [Turn(pid, Listing(ids), NoFault)] + rest), pid)
    ensures var end := Run(s, first + more + [Turn(pid, Listing(ids), NoFault)] + rest);
      && (forall t :: t in ids ==> IsSettled(end, t))
      && (forall w :: w in end.wins && w.pid == pid && w.to == Completed ==> w.t in ids)
    ensures (forall t :: t in ids <==> t in file) <==> KeepsLinks(Run(s, first), more, b, file)
  {
    var turn := Turn(pid, Listing(ids), NoFault);
    var all := first + more + [turn] + rest;
    RunSplits(s, first, more);
    RunOneMore(s, first + more, turn);
    RunSplits(s, first + more + [turn], rest);
    ListsItsFileExactly(Run(s, first), more, b, file, ids);
    ListIsRead(Run(s, first + more), pid, b, ids);
    ListedThroughRun(Run(s, first + more + [turn]), rest, pid);
    RunKeepsCompletions(s, all);
    forall w | w in Run(s, all).wins && w.pid == pid && w.to == Completed ensures w.t in ids {
      assert CompletionOk(Run(s, all), w);
    }
    forall t | t in ids ensures IsSettled(Run(s, all), t) {
      var i :| 0 <= i < |ids| && ids[i] == t;
      AcknowledgedRowsAreSettled(s, all, pid, i);
    }
  }

  lemma {:induction false} ListIsRead(s: System, pid: nat, b: BatchId, ids: seq<TransferId>)
    requires AboutToList(s, pid, b, ids)
    ensures var s' := Apply(s, Turn(pid, Listing(ids), NoFault));
      pid < |s'.procs| && HasListed(s'.procs[pid]) && s'.procs[pid].ids == ids
  {
  }
}
