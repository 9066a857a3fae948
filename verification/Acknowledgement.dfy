/** AcknowledgeBatch racing returns, other acknowledgements and further triggers. */
module Acknowledgement {
  import opened States
  import opened Tables
  import opened Operations
  import opened Handlers
  import opened System
  import opened Invariant
  import opened History
  import opened Listings

  /** The row has left FundsPosted, or the update for it failed for want of the database. */
  predicate TurnTaken(s: System, p: Proc, i: nat)
    requires p.Acknowledge? && i < |p.ids|
  {
    var t := p.ids[i];
    t < |s.db.rows| && (s.db.rows[t].state == Completed || s.db.rows[t].state == Returned || t in p.faulted)
  }

  ghost predicate AckProc(s: System, p: Proc) {
    p.Acknowledge? && (p.apc.AComplete? || p.apc.ACompleteEvent? || p.apc.ACompleted? || p.apc.ASettled?
                       || (p.apc == AHalt(None) && p.next > 0)) ==>
      && (forall i :: 0 <= i < |p.ids| ==> p.ids[i] < |s.db.rows| && OncePosted(s.db.rows[p.ids[i]].state))
      && (forall i: nat :: i < p.next && i < |p.ids| ==> TurnTaken(s, p, i))
      && (!p.apc.AHalt? && !p.apc.AComplete? && p.next < |p.ids| ==> TurnTaken(s, p, p.next))
      && (p.apc.AHalt? ==> p.next >= |p.ids|)
  }

  ghost predicate AckOther(p: Proc) {
    p.Acknowledge? && (p.apc.ALoad? || p.apc.AList? || p.apc.AStatus? || (p.apc.AHalt? && p.apc != AHalt(None))) ==>
      p.next == 0
  }

  ghost predicate AckOk(s: System) {
    && (forall t: TransferId :: t < |s.db.rows| && s.db.rows[t].batch.Some? ==> OncePosted(s.db.rows[t].state))
    && (forall pid :: 0 <= pid < |s.procs| ==> AckProc(s, s.procs[pid]) && AckStart(s, s.procs[pid]))
  }

  /** Before its loop the process has touched nothing; the rows it has read are linked. */
  ghost predicate AckStart(s: System, p: Proc) {
    && AckOther(p)
    && (p.Acknowledge? && p.apc.AStatus? ==>
          forall i :: 0 <= i < |p.ids| ==> p.ids[i] < |s.db.rows| && OncePosted(s.db.rows[p.ids[i]].state))
  }

  /** How far rows move: what has left FundsPosted never comes back. */
  ghost predicate Settles(s: System, s': System) {
    && |s.db.rows| <= |s'.db.rows|
    && (forall t: TransferId :: t < |s.db.rows| ==>
          && (OncePosted(s.db.rows[t].state) ==> OncePosted(s'.db.rows[t].state))
          && (s.db.rows[t].state == Completed || s.db.rows[t].state == Returned ==>
                s'.db.rows[t].state == Completed || s'.db.rows[t].state == Returned))
  }

  /** No call that keeps to the table takes a row out of Completed but for Returned. */
  lemma {:induction false} CallSettles(db: Db, call: Call, answer: Answer, fault: Fault, t: TransferId)
    requires t < |db.rows| && (db.rows[t].state == Completed || db.rows[t].state == Returned)
    requires call.UpdateState? ==> Edge(call.from, call.to)
    ensures var db' := Execute(db, call, answer, fault).0;
      t < |db'.rows| && (db'.rows[t].state == Completed || db'.rows[t].state == Returned)
  {
    StatesAfterCall(db, call, answer, fault);
  }

  lemma {:induction false} ApplySettles(s: System, a: Action)
    requires Inv(s)
    ensures Settles(s, Apply(s, a))
  {
    var s' := Apply(s, a);
    ApplyKeepsInv(s, a);
    forall t: TransferId | t < |s.db.rows| && (s.db.rows[t].state == Completed || s.db.rows[t].state == Returned)
      ensures s'.db.rows[t].state == Completed || s'.db.rows[t].state == Returned
    {
      if a.Turn? && a.pid < |s.procs| {
        CallsAreSafe(s, s.procs[a.pid]);
        CallSettles(s.db, NextCall(s.procs[a.pid]), a.answer, a.fault, t);
      }
    }
  }

  lemma {:induction false} AckProcStays(s: System, s': System, p: Proc)
    requires Settles(s, s') && AckProc(s, p) && AckStart(s, p)
    ensures AckProc(s', p) && AckStart(s', p)
  {
    if p.Acknowledge? {
      forall i: nat | i < |p.ids| && TurnTaken(s, p, i) ensures TurnTaken(s', p, i) {
      }
    }
  }

  /** Which rows a call links. */
  ghost predicate LinksOnlyBy(db: Db, db': Db, call: Call) {
    && |db.rows| <= |db'.rows|
    && (forall t: TransferId :: t < |db.rows| && !(call.SetSettlementBatch? && call.t == t) ==>
          db'.rows[t].batch == db.rows[t].batch)
    && (forall t: TransferId :: |db.rows| <= t < |db'.rows| ==> db'.rows[t].batch == None)
  }

  lemma {:induction false} LinksWhenPerformed(db: Db, call: Call, answer: Answer)
    ensures LinksOnlyBy(db, Perform(db, call, answer).0, call)
  {
  }

  lemma {:induction false} LinksAfterCall(db: Db, call: Call, answer: Answer, fault: Fault)
    ensures LinksOnlyBy(db, Execute(db, call, answer, fault).0, call)
  {
    LinksWhenPerformed(db, call, answer);
  }

  lemma {:induction false} RowsStayLinked(s: System, pid: nat, answer: Answer, fault: Fault, t: TransferId)
    requires Inv(s) && AckOk(s) && pid < |s.procs|
    requires t < |TakeTurn(s, pid, answer, fault).db.rows| && TakeTurn(s, pid, answer, fault).db.rows[t].batch.Some?
    ensures OncePosted(TakeTurn(s, pid, answer, fault).db.rows[t].state)
  {
    var p := s.procs[pid];
    LinksAfterCall(s.db, NextCall(p), answer, fault);
    ApplySettles(s, Turn(pid, answer, fault));
    assert AckProc(s, p);
    OnlyAcknowledgementsLink(p);
  }

  lemma {:induction false} OnlyAcknowledgementsLink(p: Proc)
    ensures NextCall(p).SetSettlementBatch? ==> p.Acknowledge? && p.apc.ASettled?
  {
    match p
    case Deposit(_, _, _, _, _) =>
    case Operator(_, _, _, _, _, _, _) =>
    case Return(_, _, _, _, _) =>
    case Acknowledge(_, _, _, _, _, _) =>
  }

  /** The turn of an acknowledgement itself. */
  lemma {:induction false} AckResumes(s: System, pid: nat, answer: Answer, fault: Fault, p: Proc, r: Reply)
    requires Inv(s) && AckOk(s) && pid < |s.procs| && p == s.procs[pid] && p.Acknowledge?
    requires r == Execute(s.db, NextCall(p), answer, fault).1
    ensures var s' := TakeTurn(s, pid, answer, fault);
      AckProc(s', Resume(p, r)) && AckStart(s', Resume(p, r))
  {
    var s' := TakeTurn(s, pid, answer, fault);
    ApplySettles(s, Turn(pid, answer, fault));
    AckProcStays(s, s', p);
    AckReply(s.db, s'.db, p, answer, fault);
    AckMoves(s', p, r);
  }

  /** What an acknowledgement learns from its reply. */
  ghost predicate AckLearns(db: Db, p: Proc, r: Reply)
    requires p.Acknowledge?
  {
    && (p.apc.AList? && r.Linked? ==>
          forall i :: 0 <= i < |r.ids| ==> r.ids[i] < |db.rows| && OncePosted(db.rows[r.ids[i]].state))
    && (p.apc.AComplete? && p.next < |p.ids| && p.ids[p.next] < |db.rows| ==>
          var state := db.rows[p.ids[p.next]].state;
          && (r == Done ==> state == Completed)
          && (r == Failed(OptimisticLock) ==> state != FundsPosted)
          && (r == Done || r.Failed?))
  }

  lemma {:induction false} AckReply(db: Db, db': Db, p: Proc, answer: Answer, fault: Fault)
    requires p.Acknowledge? && db' == Execute(db, NextCall(p), answer, fault).0
    requires forall t: TransferId :: t < |db.rows| && db.rows[t].batch.Some? ==> OncePosted(db.rows[t].state)
    ensures AckLearns(db', p, Execute(db, NextCall(p), answer, fault).1)
  {
  }

  lemma {:induction false} AckMoves(s: System, p: Proc, r: Reply)
    requires p.Acknowledge? && AckProc(s, p) && AckStart(s, p) && AckLearns(s.db, p, r)
    ensures AckProc(s, AfterAcknowledge(p, r)) && AckStart(s, AfterAcknowledge(p, r))
  {
    var q := AfterAcknowledge(p, r);
    forall i: nat | i < |p.ids| && q.ids == p.ids && TurnTaken(s, p, i) ensures TurnTaken(s, q, i) {
    }
    if p.apc.AComplete? && p.next < |p.ids| {
      assert TurnTaken(s, q, p.next);
    }
  }

  lemma {:induction false} ApplyKeepsAck(s: System, a: Action)
    requires Inv(s) && AckOk(s)
    ensures AckOk(Apply(s, a))
  {
    var s' := Apply(s, a);
    ApplySettles(s, a);
    if a.Turn? && a.pid < |s.procs| {
      forall t: TransferId | t < |s'.db.rows| && s'.db.rows[t].batch.Some? ensures OncePosted(s'.db.rows[t].state) {
        RowsStayLinked(s, a.pid, a.answer, a.fault, t);
      }
    }
    forall pid | 0 <= pid < |s'.procs| ensures AckProc(s', s'.procs[pid]) && AckStart(s', s'.procs[pid]) {
      if a.Turn? && a.pid == pid {
        NextAckProc(s, pid, a.answer, a.fault);
      } else if pid < |s.procs| {
        assert AckProc(s, s.procs[pid]) && AckStart(s, s.procs[pid]);
        AckProcStays(s, s', s.procs[pid]);
      }
    }
  }

  lemma {:induction false} NextAckProc(s: System, pid: nat, answer: Answer, fault: Fault)
    requires Inv(s) && AckOk(s) && pid < |s.procs|
    ensures var s' := TakeTurn(s, pid, answer, fault); AckProc(s', s'.procs[pid]) && AckStart(s', s'.procs[pid])
  {
    var p := s.procs[pid];
    var r := Execute(s.db, NextCall(p), answer, fault).1;
    if p.Acknowledge? {
      AckResumes(s, pid, answer, fault, p, r);
    } else {
      KindsStay(p, r);
    }
  }

  lemma {:induction false} KindsStay(p: Proc, r: Reply)
    ensures Resume(p, r).Acknowledge? <==> p.Acknowledge?
  {
    match p
    case Deposit(_, _, _, _, _) =>
    case Operator(_, _, _, _, _, _, _) =>
    case Return(_, _, _, _, _) =>
    case Acknowledge(_, _, _, _, _, _) =>
  }

  lemma {:induction false} RunKeepsAck(s: System, actions: seq<Action>)
    requires Initial(s)
    ensures AckOk(Run(s, actions))
  {
    if actions != [] {
      RunKeepsAck(s, actions[..|actions| - 1]);
      RunKeepsInv(s, actions[..|actions| - 1]);
      ApplyKeepsAck(Run(s, actions[..|actions| - 1]), actions[|actions| - 1]);
    }
  }

  /** In every interleaving, an acknowledgement leaves each row whose turn it has taken Completed or
      Returned, unless the update failed for want of the database; rows it has not reached, and rows
      it could not update, are at least FundsPosted; and once its loop has ended it has reached all. */
  lemma {:induction false} AcknowledgedRowsAreSettled(s: System, actions: seq<Action>, pid: nat, i: nat)
    requires Initial(s) && pid < |Run(s, actions).procs|
    requires var p := Run(s, actions).procs[pid];
      p.Acknowledge? && i < |p.ids| && (p.apc.AComplete? || p.apc.ASettled? || (p.apc == AHalt(None) && p.next > 0))
    ensures var s' := Run(s, actions); var p := s'.procs[pid];
      && p.ids[i] < |s'.db.rows|
      && OncePosted(s'.db.rows[p.ids[i]].state)
      && (i < p.next || p.apc.AHalt? ==>
            p.ids[i] in p.faulted || s'.db.rows[p.ids[i]].state == Completed || s'.db.rows[p.ids[i]].state == Returned)
  {
    RunKeepsAck(s, actions);
    var s' := Run(s, actions);
    assert AckProc(s', s'.procs[pid]);
    assert i < s'.procs[pid].next ==> TurnTaken(s', s'.procs[pid], i);
  }

  /** Once posted, a row stays so and keeps its origin, whatever runs. */
  lemma {:induction false} PostedThroughout(s: System, actions: seq<Action>, t: TransferId)
    requires Inv(s) && t < |s.db.rows| && OncePosted(s.db.rows[t].state)
    ensures var s' := Run(s, actions);
      t < |s'.db.rows| && OncePosted(s'.db.rows[t].state) && SameOrigin(s.db.rows[t], s'.db.rows[t])
  {
    if actions != [] {
      var init := actions[..|actions| - 1];
      PostedThroughout(s, init, t);
      RunKeepsInv(s, init);
      ApplyKeepsInv(Run(s, init), actions[|actions| - 1]);
    }
  }

  /** None drops out of settlement: in every interleaving with faults anywhere, whatever triggers and
      acknowledgements were interrupted, a transfer that was FundsPosted before a cutoff is later Completed
      or Returned, or in every listing for that or a later cutoff. */
  lemma {:induction false} NoneDropsOut(
    s: System, first: seq<Action>, more: seq<Action>, t: TransferId, cutoff: int, later: int, ts: seq<Transfer>)
    requires Initial(s) && t < |Run(s, first).db.rows| && IsDue(Run(s, first).db.rows[t], cutoff)
    requires cutoff <= later && IsDueListing(Run(s, first + more).db.rows, later, ts)
    ensures var rows := Run(s, first + more).db.rows;
      t < |rows| && (rows[t].state == Completed || rows[t].state == Returned || Has(ts, t))
  {
    RunSplits(s, first, more);
    RunKeepsInv(s, first);
    PostedThroughout(Run(s, first), more, t);
    assert Has(ts, t) || !IsDue(Run(s, first + more).db.rows[t], later);
  }

  /** Somebody has taken the row out of FundsPosted: an acknowledgement or a return. */
  ghost predicate MovedOn(s: System, t: TransferId) {
    || WonIn(s.wins, Event(t, StateChanged(FundsPosted, Completed)))
    || WonIn(s.wins, Event(t, StateChanged(FundsPosted, Returned)))
  }

  /** A path that has passed FundsPosted and does not end there has an edge out of it. */
  lemma {:induction false} PassedFundsPosted(h: seq<State>)
    requires IsPath(h) && h[0] == Requested && (h[|h| - 1] == Completed || h[|h| - 1] == Returned)
    ensures Change(FundsPosted, Completed) in EdgesOf(h) || Change(FundsPosted, Returned) in EdgesOf(h)
  {
    var n := |h| - 1;
    assert Edge(h[n - 1], h[n]);
    if h[n - 1] == Completed {
      assert Edge(h[n - 2], h[n - 1]);
      var init := h[..n];
      assert init[n - 2] == FundsPosted && init[n - 1] == Completed;
      assert EdgesOf(init)[|EdgesOf(init)| - 1] == Change(FundsPosted, Completed);
    }
  }

  lemma {:induction false} PostedUnlessMoved(s: System, t: TransferId)
    requires HistoryOk(s) && t < |s.db.rows| && OncePosted(s.db.rows[t].state)
    ensures s.db.rows[t].state == FundsPosted <==> !MovedOn(s, t)
  {
    var h := StatesOf(s.wins, t);
    assert PathTo(h, s.db.rows[t].state);
    if s.db.rows[t].state != FundsPosted {
      PassedFundsPosted(h);
      EdgesAreWins(s.wins, t, FundsPosted, Completed);
      EdgesAreWins(s.wins, t, FundsPosted, Returned);
    }
  }

  /** Sent at most once?  The listing does not ask whether a row is in a batch already.  A transfer that
      was in one listing is in a later one, and so in a second file, exactly when neither an
      acknowledgement nor a return has moved it on in between, whatever became of its first batch. */
  lemma {:induction false} ListedAgainExactly(
    s: System, first: seq<Action>, more: seq<Action>, t: TransferId, cutoff: int, later: int,
    ts: seq<Transfer>, us: seq<Transfer>)
    requires Initial(s) && IsDueListing(Run(s, first).db.rows, cutoff, ts) && Has(ts, t)
    requires cutoff <= later && IsDueListing(Run(s, first + more).db.rows, later, us)
    ensures Has(us, t) <==> !MovedOn(Run(s, first + more), t)
  {
    RunSplits(s, first, more);
    RunKeepsInv(s, first);
    PostedThroughout(Run(s, first), more, t);
    RunKeepsHistory(s, first + more);
    PostedUnlessMoved(Run(s, first + more), t);
    assert Has(us, t) || !IsDue(Run(s, first + more).db.rows[t], later);
  }
}
