/** The state changes of each transfer over a whole run, and the audit events written for them. */
module History {
  import opened States
  import opened Tables
  import opened Operations
  import opened Handlers
  import opened System
  import opened Invariant

  /** The states a transfer has been in, oldest first. */
  function StatesOf(wins: seq<Win>, t: TransferId): (h: seq<State>)
    ensures h != [] && h[0] == Requested
  {
    if wins == [] then [Requested]
    else
      var w := wins[|wins| - 1];
      StatesOf(wins[..|wins| - 1], t) + if w.t == t then [w.to] else []
  }

  lemma {:induction false} StatesAppend(wins: seq<Win>, w: Win, t: TransferId)
    ensures StatesOf(wins + [w], t) == StatesOf(wins, t) + if w.t == t then [w.to] else []
  {
    assert (wins + [w])[..|wins|] == wins;
  }

  /** The history of each row is a path of the table from Requested to the row's state, and a win's
      target is no further than the row has come. */
  ghost predicate HistoryOk(s: System) {
    && PathsTo(s.wins, s.db.rows)
    && WinsClimbTo(s.wins, s.db.rows)
    && Chained(s.wins)
  }

  /** The wins of every transfer make a path to its state. */
  ghost predicate PathsTo(wins: seq<Win>, rows: seq<Row>) {
    && (forall t: TransferId :: t < |rows| ==> PathTo(StatesOf(wins, t), rows[t].state))
    && (forall t: TransferId :: t >= |rows| ==> StatesOf(wins, t) == [Requested])
  }

  /** Wins of a transfer go up in rank, as far as its state. */
  ghost predicate WinsClimbTo(wins: seq<Win>, rows: seq<Row>) {
    && (forall i :: 0 <= i < |wins| ==>
          && wins[i].t < |rows|
          && Edge(wins[i].from, wins[i].to)
          && Rank(wins[i].to) <= Rank(rows[wins[i].t].state))
    && (forall i, j :: 0 <= i < j < |wins| && wins[i].t == wins[j].t ==> Rank(wins[i].to) <= Rank(wins[j].from))
  }

  /** A win leaves the state its transfer was in. */
  predicate FollowsOn(wins: seq<Win>, i: nat)
    requires i < |wins|
  {
    var h := StatesOf(wins[..i], wins[i].t);
    wins[i].from == h[|h| - 1]
  }

  ghost predicate Chained(wins: seq<Win>) {
    forall i :: 0 <= i < |wins| ==> FollowsOn(wins, i)
  }

  ghost predicate PathTo(h: seq<State>, state: State) {
    IsPath(h) && h[0] == Requested && h[|h| - 1] == state
  }

  lemma {:induction false} PathExtends(h: seq<State>, state: State, to: State)
    requires PathTo(h, state) && Edge(state, to)
    ensures PathTo(h + [to], to)
  {
    var g := h + [to];
    forall i | 0 < i < |g| ensures Edge(g[i - 1], g[i]) {
      if i < |h| {
        assert g[i - 1] == h[i - 1] && g[i] == h[i];
      } else {
        assert g[i - 1] == h[|h| - 1];
      }
    }
  }

  lemma {:induction false} ChainedAppend(wins: seq<Win>, w: Win)
    requires Chained(wins) && var h := StatesOf(wins, w.t); w.from == h[|h| - 1]
    ensures Chained(wins + [w])
  {
    var all := wins + [w];
    forall i | 0 <= i < |all| ensures FollowsOn(all, i) {
      assert all[..i] == wins[..i];
      if i < |wins| {
        assert FollowsOn(wins, i);
      } else {
        assert wins[..i] == wins;
      }
    }
  }

  lemma {:induction false} WinMakesPaths(wins: seq<Win>, rows: seq<Row>, rows': seq<Row>, w: Win)
    requires PathsTo(wins, rows) && w.t < |rows| && rows[w.t].state == w.from && Edge(w.from, w.to)
    requires |rows'| == |rows| && rows'[w.t].state == w.to
    requires forall t: TransferId :: t < |rows| && t != w.t ==> rows'[t].state == rows[t].state
    ensures PathsTo(wins + [w], rows')
  {
    forall t: TransferId
      ensures t < |rows'| ==> PathTo(StatesOf(wins + [w], t), rows'[t].state)
      ensures t >= |rows'| ==> StatesOf(wins + [w], t) == [Requested]
    {
      StatesAppend(wins, w, t);
      if t == w.t {
        PathExtends(StatesOf(wins, t), w.from, w.to);
      } else {
        assert StatesOf(wins + [w], t) == StatesOf(wins, t);
      }
    }
  }

  lemma {:induction false} WinClimbs(wins: seq<Win>, rows: seq<Row>, rows': seq<Row>, w: Win)
    requires WinsClimbTo(wins, rows) && w.t < |rows| && rows[w.t].state == w.from && Edge(w.from, w.to)
    requires |rows'| == |rows| && rows'[w.t].state == w.to
    requires forall t: TransferId :: t < |rows| && t != w.t ==> rows'[t].state == rows[t].state
    ensures WinsClimbTo(wins + [w], rows')
  {
  }

  lemma {:induction false} WinKeepsHistory(s: System, s': System, w: Win)
    requires HistoryOk(s) && w.t < |s.db.rows| && s.db.rows[w.t].state == w.from && Edge(w.from, w.to)
    requires s'.wins == s.wins + [w] && |s'.db.rows| == |s.db.rows|
    requires s'.db.rows[w.t].state == w.to
    requires forall t: TransferId :: t < |s.db.rows| && t != w.t ==> s'.db.rows[t].state == s.db.rows[t].state
    ensures HistoryOk(s')
  {
    WinMakesPaths(s.wins, s.db.rows, s'.db.rows, w);
    WinClimbs(s.wins, s.db.rows, s'.db.rows, w);
    assert PathTo(StatesOf(s.wins, w.t), w.from);
    ChainedAppend(s.wins, w);
  }

  lemma {:induction false} NoWinKeepsHistory(s: System, s': System)
    requires HistoryOk(s) && s'.wins == s.wins && |s.db.rows| <= |s'.db.rows|
    requires forall t: TransferId :: t < |s.db.rows| ==> s'.db.rows[t].state == s.db.rows[t].state
    requires forall t: TransferId :: |s.db.rows| <= t < |s'.db.rows| ==> s'.db.rows[t].state == Requested
    ensures HistoryOk(s')
  {
  }

  /** Only a won update changes a state. */
  lemma {:induction false} StatesAfterCall(db: Db, call: Call, answer: Answer, fault: Fault)
    ensures var db' := Execute(db, call, answer, fault).0;
      && |db.rows| <= |db'.rows|
      && (forall t: TransferId :: t < |db.rows| && !(call.UpdateState? && call.t == t) ==>
            db'.rows[t].state == db.rows[t].state)
      && (forall t: TransferId :: |db.rows| <= t < |db'.rows| ==> db'.rows[t].state == Requested)
      && (call.UpdateState? && fault != Refused && LockHolds(db, call.t, call.from) ==>
            |db'.rows| == |db.rows| && db'.rows[call.t].state == call.to)
      && (call.UpdateState? && !(fault != Refused && LockHolds(db, call.t, call.from)) ==> db' == db)
  {
    if IsPlain(db, call, answer) {
      PlainCalls(db, call, answer);
    }
  }

  lemma {:induction false} ApplyKeepsHistory(s: System, a: Action)
    requires Inv(s) && HistoryOk(s)
    ensures HistoryOk(Apply(s, a))
  {
    var s' := Apply(s, a);
    if a.Turn? && a.pid < |s.procs| {
      var p := s.procs[a.pid];
      var call := NextCall(p);
      StatesAfterCall(s.db, call, a.answer, a.fault);
      CallsAreSafe(s, p);
      if call.UpdateState? && a.fault != Refused && LockHolds(s.db, call.t, call.from) {
        WinKeepsHistory(s, s', Win(call.t, call.from, call.to, ActorOf(p), a.pid));
      } else {
        assert s'.wins == s.wins;
        NoWinKeepsHistory(s, s');
      }
    } else {
      NoWinKeepsHistory(s, s');
    }
  }

  lemma {:induction false} RunKeepsHistory(s: System, actions: seq<Action>)
    requires Initial(s)
    ensures Inv(Run(s, actions)) && HistoryOk(Run(s, actions))
  {
    RunKeepsInv(s, actions);
    if actions != [] {
      RunKeepsHistory(s, actions[..|actions| - 1]);
      ApplyKeepsHistory(Run(s, actions[..|actions| - 1]), actions[|actions| - 1]);
    }
  }

  /** Every transfer's history in every run is a path of the transition table from Requested to its
      present state, of at most six changes, although returns and settlement update without the
      table check. */
  lemma {:induction false} HistoriesArePaths(s: System, actions: seq<Action>, t: TransferId)
    requires Initial(s) && t < |Run(s, actions).db.rows|
    ensures var s' := Run(s, actions); var h := StatesOf(s'.wins, t);
      && h[0] == Requested && h[|h| - 1] == s'.db.rows[t].state
      && (forall i :: 0 < i < |h| ==> IsValidTransition(h[i - 1], h[i]))
      && |h| <= 7
  {
    RunKeepsHistory(s, actions);
    var h := StatesOf(Run(s, actions).wins, t);
    assert PathTo(h, Run(s, actions).db.rows[t].state);
    PathsAreShort(h);
    forall i | 0 < i < |h| ensures IsValidTransition(h[i - 1], h[i]) {
      EdgesAreTheTable(h[i - 1], h[i]);
    }
  }

  /** Each edge of a transfer is won once, so by one process only. */
  lemma {:induction false} EdgesAreWonOnce(s: System, actions: seq<Action>, i: nat, j: nat)
    requires Initial(s) && i < j < |Run(s, actions).wins|
    requires Run(s, actions).wins[i].t == Run(s, actions).wins[j].t
    ensures Run(s, actions).wins[i].from != Run(s, actions).wins[j].from
    ensures Run(s, actions).wins[i].to != Run(s, actions).wins[j].to
  {
    RunKeepsHistory(s, actions);
    WinsClimb(Run(s, actions), i, j);
  }

  lemma {:induction false} WinsClimb(s: System, i: nat, j: nat)
    requires HistoryOk(s) && i < j < |s.wins| && s.wins[i].t == s.wins[j].t
    ensures s.wins[i].from != s.wins[j].from && s.wins[i].to != s.wins[j].to
  {
    assert Edge(s.wins[i].from, s.wins[i].to) && Edge(s.wins[j].from, s.wins[j].to);
    assert Rank(s.wins[i].to) <= Rank(s.wins[j].from);
  }

  lemma {:induction false} RunLast(s: System, actions: seq<Action>)
    requires actions != []
    ensures Run(s, actions) == Apply(Run(s, actions[..|actions| - 1]), actions[|actions| - 1])
  {
  }

  lemma {:induction false} RunOneMore(s: System, actions: seq<Action>, a: Action)
    ensures Run(s, actions + [a]) == Apply(Run(s, actions), a)
  {
    assert (actions + [a])[..|actions|] == actions;
    RunLast(s, actions + [a]);
  }

  lemma {:induction false} RunSplits(s: System, first: seq<Action>, more: seq<Action>)
    ensures Run(s, first + more) == Run(Run(s, first), more)
  {
    if more == [] {
      assert first + more == first;
    } else {
      var n := |more| - 1;
      RunSplits(s, first, more[..n]);
      assert (first + more)[..|first + more| - 1] == first + more[..n];
    }
  }

  /** Rejected and Returned are never left, whatever happens next. */
  lemma {:induction false} TerminalStatesStay(s: System, first: seq<Action>, more: seq<Action>, t: TransferId)
    requires Initial(s) && t < |Run(s, first).db.rows|
    requires Run(s, first).db.rows[t].state == Rejected || Run(s, first).db.rows[t].state == Returned
    ensures t < |Run(s, first + more).db.rows|
    ensures Run(s, first + more).db.rows[t].state == Run(s, first).db.rows[t].state
  {
    RunKeepsInv(s, first);
    RunSplits(s, first, more);
    TerminalThroughout(Run(s, first), more, t);
  }

  lemma {:induction false} TerminalThroughout(s: System, actions: seq<Action>, t: TransferId)
    requires Inv(s) && t < |s.db.rows| && (s.db.rows[t].state == Rejected || s.db.rows[t].state == Returned)
    ensures t < |Run(s, actions).db.rows| && Run(s, actions).db.rows[t].state == s.db.rows[t].state
  {
    if actions != [] {
      var before := actions[..|actions| - 1];
      TerminalThroughout(s, before, t);
      RunKeepsInv(s, before);
      TerminalStays(Run(s, before), actions[|actions| - 1], t);
    }
  }

  lemma {:induction false} TerminalStays(s: System, a: Action, t: TransferId)
    requires Inv(s) && t < |s.db.rows| && (s.db.rows[t].state == Rejected || s.db.rows[t].state == Returned)
    ensures t < |Apply(s, a).db.rows| && Apply(s, a).db.rows[t].state == s.db.rows[t].state
  {
    if a.Turn? && a.pid < |s.procs| {
      StatesAfterCall(s.db, NextCall(s.procs[a.pid]), a.answer, a.fault);
      CallsAreSafe(s, s.procs[a.pid]);
    }
  }

  // ---- the audit trail ----

  /** The state_changed event a process still owes. */
  function Owed(p: Proc): Option<Event> {
    var call := NextCall(p);
    if call.WriteEvent? && call.step.StateChanged? then Some(Event(call.t, call.step)) else None
  }

  function EventOf(w: Win): Event {
    Event(w.t, StateChanged(w.from, w.to))
  }

  ghost predicate Written(s: System, e: Event) {
    exists i :: 0 <= i < |s.db.events| && s.db.events[i] == e
  }

  ghost predicate Pending(s: System, e: Event) {
    exists pid :: 0 <= pid < |s.procs| && Owed(s.procs[pid]) == Some(e)
  }

  ghost predicate WonIn(wins: seq<Win>, e: Event) {
    exists i :: 0 <= i < |wins| && EventOf(wins[i]) == e
  }

  ghost predicate Won(s: System, e: Event) {
    WonIn(s.wins, e)
  }

  lemma {:induction false} WonAppend(wins: seq<Win>, w: Win, e: Event)
    ensures WonIn(wins + [w], e) <==> WonIn(wins, e) || e == EventOf(w)
  {
    if WonIn(wins, e) {
      var i :| 0 <= i < |wins| && EventOf(wins[i]) == e;
      assert (wins + [w])[i] == wins[i];
    }
    assert (wins + [w])[|wins|] == w;
  }

  /** The change was made, and its event is neither written nor owed by anyone. */
  ghost predicate Lost(s: System, e: Event) {
    e.step.StateChanged? && Won(s, e) && !Written(s, e) && !Pending(s, e)
  }

  ghost predicate NothingLost(s: System) {
    forall e: Event :: !Lost(s, e)
  }

  ghost predicate LostStays(s: System, s': System) {
    forall e: Event :: Lost(s, e) ==> Lost(s', e)
  }

  /** Written and owed events tell of changes that happened, each once. */
  ghost predicate TrailOk(s: System) {
    && (forall i :: 0 <= i < |s.db.events| && s.db.events[i].step.StateChanged? ==> Won(s, s.db.events[i]))
    && (forall pid :: 0 <= pid < |s.procs| && Owed(s.procs[pid]).Some? ==>
          Won(s, Owed(s.procs[pid]).value) && !Written(s, Owed(s.procs[pid]).value))
    && (forall i, j :: 0 <= i < j < |s.db.events| && s.db.events[i].step.StateChanged? ==>
          s.db.events[i] != s.db.events[j])
    && (forall i, j :: 0 <= i < j < |s.procs| && Owed(s.procs[i]).Some? ==> Owed(s.procs[i]) != Owed(s.procs[j]))
  }

  /** No write of a state change is refused, and no reply to a won update is lost. */
  predicate KeepsTrail(s: System, a: Action) {
    a.Turn? && a.pid < |s.procs| ==>
      var call := NextCall(s.procs[a.pid]);
      && (call.WriteEvent? && call.step.StateChanged? ==> a.fault != Refused)
      && (call.UpdateState? && LockHolds(s.db, call.t, call.from) ==> a.fault != ReplyLost)
  }

  predicate TrailKept(s: System, actions: seq<Action>) {
    actions == [] ||
    ( && TrailKept(s, actions[..|actions| - 1])
      && KeepsTrail(Run(s, actions[..|actions| - 1]), actions[|actions| - 1]))
  }

  /** The events after a call. */
  lemma {:induction false} EventsAfterCall(db: Db, call: Call, answer: Answer, fault: Fault)
    ensures var db' := Execute(db, call, answer, fault).0;
      && (call.WriteEvent? && fault != Refused && call.t < |db.rows| ==>
            db'.events == db.events + [Event(call.t, call.step)])
      && (!(call.WriteEvent? && fault != Refused && call.t < |db.rows|) ==> db'.events == db.events)
  {
  }

  lemma {:induction false} DepositOwes(p: Proc, r: Reply)
    requires p.Deposit?
    ensures Owed(AfterDeposit(p, r)).Some? ==> OwesTheWin(DepositCall(p), r, AfterDeposit(p, r))
  {
  }

  lemma {:induction false} OperatorOwes(p: Proc, r: Reply)
    requires p.Operator?
    ensures Owed(AfterOperator(p, r)).Some? ==> OwesTheWin(OperatorCall(p), r, AfterOperator(p, r))
  {
  }

  lemma {:induction false} ReturnOwes(p: Proc, r: Reply)
    requires p.Return?
    ensures Owed(AfterReturn(p, r)).Some? ==> OwesTheWin(ReturnCall(p), r, AfterReturn(p, r))
  {
  }

  lemma {:induction false} AcknowledgeOwes(p: Proc, r: Reply)
    requires p.Acknowledge?
    ensures Owed(AfterAcknowledge(p, r)).Some? ==> OwesTheWin(AcknowledgeCall(p), r, AfterAcknowledge(p, r))
  {
  }

  /** The call was an update that went through, and the event owed tells of it. */
  predicate OwesTheWin(call: Call, r: Reply, p: Proc) {
    call.UpdateState? && r == Done && Owed(p) == Some(Event(call.t, StateChanged(call.from, call.to)))
  }

  /** A process comes to owe an event only by winning the update the event tells of, and stops owing
      it when it has tried to write it. */
  lemma {:induction false} OwesAfterReply(p: Proc, r: Reply)
    ensures Owed(Resume(p, r)).Some? ==> OwesTheWin(NextCall(p), r, Resume(p, r))
  {
    match p
    case Deposit(_, _, _, _, _) => DepositOwes(p, r);
    case Operator(_, _, _, _, _, _, _) => OperatorOwes(p, r);
    case Return(_, _, _, _, _) => ReturnOwes(p, r);
    case Acknowledge(_, _, _, _, _, _) => AcknowledgeOwes(p, r);
  }

  /** The other way round: a win whose reply arrives leaves its winner owing the event. */
  lemma {:induction false} WinsAreOwed(p: Proc)
    requires NextCall(p).UpdateState?
    ensures var call := NextCall(p);
      Owed(Resume(p, Done)) == Some(Event(call.t, StateChanged(call.from, call.to)))
  {
  }

  /** Nobody has won the edge before. */
  lemma {:induction false} WinIsNew(s: System, w: Win)
    requires HistoryOk(s) && w.t < |s.db.rows| && s.db.rows[w.t].state == w.from
    ensures !Won(s, EventOf(w))
  {
    forall i | 0 <= i < |s.wins| ensures EventOf(s.wins[i]) != EventOf(w) {
      assert Edge(s.wins[i].from, s.wins[i].to) && Rank(s.wins[i].to) <= Rank(s.db.rows[s.wins[i].t].state);
    }
  }

  /** A won update: its winner owes the event, or has lost the reply. */
  lemma {:induction false} WinKeepsTrail(s: System, s': System, pid: nat, w: Win, p': Proc)
    requires TrailOk(s) && HistoryOk(s) && pid < |s.procs|
    requires w.t < |s.db.rows| && s.db.rows[w.t].state == w.from
    requires s'.wins == s.wins + [w] && s'.db.events == s.db.events
    requires s'.procs == s.procs[pid := p']
    requires Owed(s.procs[pid]) == None && (Owed(p') == None || Owed(p') == Some(EventOf(w)))
    ensures TrailOk(s')
    ensures forall f: Event :: Lost(s', f) <==> Lost(s, f) || (f == EventOf(w) && Owed(p') == None)
  {
    var e := EventOf(w);
    WinIsNew(s, w);
    forall f: Event ensures Won(s', f) <==> Won(s, f) || f == e {
      WonAppend(s.wins, w, f);
    }
    WinPends(s, s', pid, w, p');
    assert forall f: Event :: Written(s', f) <==> Written(s, f);
    forall k | 0 <= k < |s'.procs| && Owed(s'.procs[k]).Some?
      ensures Won(s', Owed(s'.procs[k]).value) && !Written(s', Owed(s'.procs[k]).value)
    {
      if k != pid { assert s'.procs[k] == s.procs[k]; }
    }
    assert !Written(s, e) && !Pending(s, e);
  }

  /** Who owes what after a won update. */
  lemma {:induction false} WinPends(s: System, s': System, pid: nat, w: Win, p': Proc)
    requires pid < |s.procs| && s'.procs == s.procs[pid := p'] && Owed(s.procs[pid]) == None
    requires Owed(p') == None || Owed(p') == Some(EventOf(w))
    ensures forall f: Event :: Pending(s', f) <==> Pending(s, f) || (f == EventOf(w) && Owed(p').Some?)
  {
    assert s'.procs[pid] == p';
    forall f: Event ensures Pending(s', f) <==> Pending(s, f) || (f == EventOf(w) && Owed(p').Some?) {
      if Pending(s, f) {
        var k :| 0 <= k < |s.procs| && Owed(s.procs[k]) == Some(f);
        assert k != pid && s'.procs[k] == s.procs[k];
      }
      if Pending(s', f) {
        var k :| 0 <= k < |s'.procs| && Owed(s'.procs[k]) == Some(f);
        assert k != pid ==> s'.procs[k] == s.procs[k];
      }
    }
  }

  /** Who owes what after a try at writing an owed event. */
  lemma {:induction false} WritePends(s: System, s': System, pid: nat, e: Event, p': Proc)
    requires TrailOk(s) && pid < |s.procs| && s'.procs == s.procs[pid := p']
    requires Owed(s.procs[pid]) == Some(e) && Owed(p') == None
    ensures forall f: Event :: Pending(s', f) <==> Pending(s, f) && f != e
  {
    forall f: Event ensures Pending(s', f) <==> Pending(s, f) && f != e {
      if Pending(s, f) && f != e {
        var k :| 0 <= k < |s.procs| && Owed(s.procs[k]) == Some(f);
        assert k != pid && s'.procs[k] == s.procs[k];
      }
      if Pending(s', f) {
        var k :| 0 <= k < |s'.procs| && Owed(s'.procs[k]) == Some(f);
        assert k != pid && s'.procs[k] == s.procs[k];
        assert Owed(s.procs[k]) != Owed(s.procs[pid]);
      }
    }
  }

  lemma {:induction false} WrittenAppend(s: System, s': System, e: Event)
    requires s'.db.events == s.db.events + [e]
    ensures forall f: Event :: Written(s', f) <==> Written(s, f) || f == e
  {
    forall f: Event ensures Written(s', f) <==> Written(s, f) || f == e {
      if Written(s, f) {
        var i :| 0 <= i < |s.db.events| && s.db.events[i] == f;
        assert s'.db.events[i] == f;
      }
      assert s'.db.events[|s.db.events|] == e;
    }
  }

  /** The owed event is written, or its write refused. */
  lemma {:induction false} WriteKeepsTrail(s: System, s': System, pid: nat, e: Event, p': Proc)
    requires TrailOk(s) && pid < |s.procs|
    requires s'.wins == s.wins && (s'.db.events == s.db.events || s'.db.events == s.db.events + [e])
    requires s'.procs == s.procs[pid := p']
    requires Owed(s.procs[pid]) == Some(e) && Owed(p') == None
    ensures TrailOk(s')
    ensures forall f: Event :: Lost(s', f) <==> Lost(s, f) || (f == e && s'.db.events == s.db.events)
  {
    WritePends(s, s', pid, e, p');
    if s'.db.events == s.db.events + [e] {
      WrittenAppend(s, s', e);
    } else {
      assert forall f: Event :: Written(s', f) <==> Written(s, f);
    }
    assert forall f: Event :: Won(s', f) <==> Won(s, f);
    assert e.step.StateChanged? && Won(s, e) && !Written(s, e);
    assert forall i :: 0 <= i < |s.db.events| ==> s.db.events[i] != e;
    assert forall k :: 0 <= k < |s.procs| && k != pid ==> s'.procs[k] == s.procs[k];
  }

  /** Steps that neither win nor write a state change. */
  lemma {:induction false} OtherKeepsTrail(s: System, s': System)
    requires TrailOk(s)
    requires s'.wins == s.wins
    requires s'.db.events == s.db.events || exists e: Event :: e.step.Note? && s'.db.events == s.db.events + [e]
    requires |s.procs| <= |s'.procs|
    requires forall k :: 0 <= k < |s.procs| ==> Owed(s'.procs[k]) == Owed(s.procs[k])
    requires forall k :: |s.procs| <= k < |s'.procs| ==> Owed(s'.procs[k]) == None
    ensures TrailOk(s')
    ensures forall f: Event :: Lost(s', f) <==> Lost(s, f)
  {
    forall f: Event | f.step.StateChanged? ensures Written(s', f) <==> Written(s, f) {
      if Written(s, f) {
        var i :| 0 <= i < |s.db.events| && s.db.events[i] == f;
        assert s'.db.events[i] == f;
      }
    }
    forall f: Event ensures Won(s', f) <==> Won(s, f) {
    }
    forall f: Event ensures Pending(s', f) <==> Pending(s, f) {
      if Pending(s, f) {
        var k :| 0 <= k < |s.procs| && Owed(s.procs[k]) == Some(f);
        assert Owed(s'.procs[k]) == Some(f);
      }
    }
  }

  /** The turn of a process that wins its update. */
  lemma {:induction false} WinningTurnTrail(s: System, pid: nat, answer: Answer, fault: Fault)
    requires Inv(s) && HistoryOk(s) && TrailOk(s) && pid < |s.procs|
    requires var call := NextCall(s.procs[pid]);
      call.UpdateState? && fault != Refused && LockHolds(s.db, call.t, call.from)
    ensures TrailOk(TakeTurn(s, pid, answer, fault))
    ensures LostStays(s, TakeTurn(s, pid, answer, fault))
    ensures NothingLost(TakeTurn(s, pid, answer, fault)) <==> NothingLost(s) && fault != ReplyLost
    ensures var call := NextCall(s.procs[pid]);
      fault == ReplyLost ==> Lost(TakeTurn(s, pid, answer, fault), Event(call.t, StateChanged(call.from, call.to)))
  {
    var p, s' := s.procs[pid], TakeTurn(s, pid, answer, fault);
    var call, r := NextCall(p), Execute(s.db, NextCall(p), answer, fault).1;
    OwesAfterReply(p, r);
    WinsAreOwed(p);
    var w := Win(call.t, call.from, call.to, ActorOf(p), pid);
    WinKeepsTrail(s, s', pid, w, Resume(p, r));
    assert fault == ReplyLost ==> Lost(s', EventOf(w));
  }

  /** The turn of a process that owes an event. */
  lemma {:induction false} WritingTurnTrail(s: System, pid: nat, answer: Answer, fault: Fault)
    requires Inv(s) && HistoryOk(s) && TrailOk(s) && pid < |s.procs| && Owed(s.procs[pid]).Some?
    ensures TrailOk(TakeTurn(s, pid, answer, fault))
    ensures LostStays(s, TakeTurn(s, pid, answer, fault))
    ensures NothingLost(TakeTurn(s, pid, answer, fault)) <==> NothingLost(s) && fault != Refused
    ensures fault == Refused ==> Lost(TakeTurn(s, pid, answer, fault), Owed(s.procs[pid]).value)
  {
    var p, s' := s.procs[pid], TakeTurn(s, pid, answer, fault);
    var r, e := Execute(s.db, NextCall(p), answer, fault).1, Owed(p).value;
    EventsAfterCall(s.db, NextCall(p), answer, fault);
    OwesAfterReply(p, r);
    OwedRowsExist(s, e);
    WriteKeepsTrail(s, s', pid, e, Resume(p, r));
    assert fault == Refused ==> Lost(s', e);
  }

  /** Any other turn. */
  lemma {:induction false} OtherTurnTrail(s: System, pid: nat, answer: Answer, fault: Fault)
    requires Inv(s) && TrailOk(s) && pid < |s.procs| && Owed(s.procs[pid]) == None
    requires var call := NextCall(s.procs[pid]);
      !(call.UpdateState? && fault != Refused && LockHolds(s.db, call.t, call.from))
    ensures TrailOk(TakeTurn(s, pid, answer, fault))
    ensures LostStays(s, TakeTurn(s, pid, answer, fault))
    ensures NothingLost(TakeTurn(s, pid, answer, fault)) <==> NothingLost(s)
  {
    var p, s' := s.procs[pid], TakeTurn(s, pid, answer, fault);
    var call, r := NextCall(p), Execute(s.db, NextCall(p), answer, fault).1;
    EventsAfterCall(s.db, call, answer, fault);
    OwesAfterReply(p, r);
    if call.UpdateState? && r == Done {
      ReplyWasWon(s.db, call, answer, fault);
    }
    assert s'.procs[pid] == Resume(p, r);
    OtherKeepsTrail(s, s');
  }

  lemma {:induction false} ReplyWasWon(db: Db, call: Call, answer: Answer, fault: Fault)
    requires call.UpdateState? && Execute(db, call, answer, fault).1 == Done
    ensures fault == NoFault && LockHolds(db, call.t, call.from)
  {
  }

  /** A turn keeps the trail truthful; it loses an event exactly when it is one of the two that may not
      happen; and what is lost stays lost. */
  lemma {:induction false} TurnKeepsTrail(s: System, pid: nat, answer: Answer, fault: Fault)
    requires Inv(s) && HistoryOk(s) && TrailOk(s) && pid < |s.procs|
    ensures TrailOk(TakeTurn(s, pid, answer, fault))
    ensures LostStays(s, TakeTurn(s, pid, answer, fault))
    ensures NothingLost(TakeTurn(s, pid, answer, fault)) <==> NothingLost(s) && KeepsTrail(s, Turn(pid, answer, fault))
  {
    var p := s.procs[pid];
    var call := NextCall(p);
    if call.UpdateState? && fault != Refused && LockHolds(s.db, call.t, call.from) {
      WinningTurnTrail(s, pid, answer, fault);
    } else if Owed(p).Some? {
      WritingTurnTrail(s, pid, answer, fault);
    } else {
      OtherTurnTrail(s, pid, answer, fault);
    }
  }

  /** An event that is won belongs to a row. */
  lemma {:induction false} OwedRowsExist(s: System, e: Event)
    requires HistoryOk(s) && TrailOk(s) && Pending(s, e)
    ensures e.transfer < |s.db.rows|
  {
    assert Won(s, e);
    var i :| 0 <= i < |s.wins| && EventOf(s.wins[i]) == e;
  }

  lemma {:induction false} ApplyKeepsTrail(s: System, a: Action)
    requires Inv(s) && HistoryOk(s) && TrailOk(s)
    ensures LostStays(s, Apply(s, a))
    ensures TrailOk(Apply(s, a)) && (NothingLost(Apply(s, a)) <==> NothingLost(s) && KeepsTrail(s, a))
  {
    if a.Turn? && a.pid < |s.procs| {
      TurnKeepsTrail(s, a.pid, a.answer, a.fault);
    } else {
      OtherKeepsTrail(s, Apply(s, a));
    }
  }

  /** In every run, whatever fails: written and owed state changes are true, each told once; and no event
      is lost exactly when no write of a state change was refused and no reply to a won update lost. */
  lemma {:induction false} NothingLostExactly(s: System, actions: seq<Action>)
    requires Initial(s)
    ensures HistoryOk(Run(s, actions)) && TrailOk(Run(s, actions))
    ensures NothingLost(Run(s, actions)) <==> TrailKept(s, actions)
  {
    RunKeepsHistory(s, actions);
    if actions != [] {
      var init := actions[..|actions| - 1];
      NothingLostExactly(s, init);
      RunKeepsHistory(s, init);
      ApplyKeepsTrail(Run(s, init), actions[|actions| - 1]);
    }
  }

  /** A lost event is lost for good. */
  lemma {:induction false} LostForever(s: System, first: seq<Action>, more: seq<Action>)
    requires Initial(s)
    ensures LostStays(Run(s, first), Run(s, first + more))
  {
    if more == [] {
      assert first + more == first;
    } else {
      var n := |more| - 1;
      assert (first + more)[..|first + more| - 1] == first + more[..n];
      LostForever(s, first, more[..n]);
      RunKeepsHistory(s, first + more[..n]);
      NothingLostExactly(s, first + more[..n]);
      ApplyKeepsTrail(Run(s, first + more[..n]), more[n]);
    }
  }

  /** In every reachable state: losing the reply of an update that wins moves the row and loses the event,
      for good. */
  lemma {:induction false} LostReplyLosesEvent(
    s: System, first: seq<Action>, pid: nat, answer: Answer, more: seq<Action>)
    requires Initial(s) && pid < |Run(s, first).procs|
    requires var call := NextCall(Run(s, first).procs[pid]);
      call.UpdateState? && LockHolds(Run(s, first).db, call.t, call.from)
    ensures var call := NextCall(Run(s, first).procs[pid]); var after := first + [Turn(pid, answer, ReplyLost)];
      var e := Event(call.t, StateChanged(call.from, call.to));
      && Run(s, after).db.rows
         == Run(s, first).db.rows[call.t := Run(s, first).db.rows[call.t].(state := call.to)]
      && Lost(Run(s, after), e) && Lost(Run(s, after + more), e)
  {
    var mid, after := Run(s, first), first + [Turn(pid, answer, ReplyLost)];
    RunKeepsHistory(s, first);
    NothingLostExactly(s, first);
    WinningTurnTrail(mid, pid, answer, ReplyLost);
    assert after[..|first|] == first;
    assert Run(s, after) == Apply(mid, Turn(pid, answer, ReplyLost));
    UpdateTurn(mid, pid, answer, ReplyLost, NextCall(mid.procs[pid]));
    LostForever(s, after, more);
  }

  /** And so does a refused write of the event. */
  lemma {:induction false} RefusedWriteLosesEvent(
    s: System, first: seq<Action>, pid: nat, answer: Answer, more: seq<Action>)
    requires Initial(s) && pid < |Run(s, first).procs| && Owed(Run(s, first).procs[pid]).Some?
    ensures var e := Owed(Run(s, first).procs[pid]).value; var after := first + [Turn(pid, answer, Refused)];
      Lost(Run(s, after), e) && Lost(Run(s, after + more), e)
  {
    var mid, after := Run(s, first), first + [Turn(pid, answer, Refused)];
    RunKeepsHistory(s, first);
    NothingLostExactly(s, first);
    WritingTurnTrail(mid, pid, answer, Refused);
    assert after[..|first|] == first;
    assert Run(s, after) == Apply(mid, Turn(pid, answer, Refused));
    LostForever(s, after, more);
  }

  /** In every run: a change of a transfer is told by a written event, or owed by a process, or lost, by
      exactly one of them and once; and nothing else is told. */
  lemma {:induction false} TrailTellsHistory(s: System, actions: seq<Action>, e: Event)
    requires Initial(s) && e.step.StateChanged?
    ensures var s' := Run(s, actions);
      && (Change(e.step.from, e.step.to) in EdgesOf(StatesOf(s'.wins, e.transfer))
          <==> Written(s', e) || Pending(s', e) || Lost(s', e))
      && !(Written(s', e) && Pending(s', e))
      && (forall i, j :: 0 <= i < j < |s'.db.events| && s'.db.events[i] == e ==> s'.db.events[j] != e)
      && (forall i, j :: 0 <= i < j < |s'.procs| && Owed(s'.procs[i]) == Some(e) ==> Owed(s'.procs[j]) != Some(e))
      && (TrailKept(s, actions) ==> !Lost(s', e))
  {
    NothingLostExactly(s, actions);
    EdgesAreWins(Run(s, actions).wins, e.transfer, e.step.from, e.step.to);
  }

  datatype Change = Change(from: State, to: State)

  /** The edges along a history. */
  function EdgesOf(h: seq<State>): seq<Change> {
    if |h| <= 1 then [] else EdgesOf(h[..|h| - 1]) + [Change(h[|h| - 2], h[|h| - 1])]
  }

  /** A change is an edge of a transfer's history exactly when it was won. */
  lemma {:induction false} EdgesAreWins(wins: seq<Win>, t: TransferId, from: State, to: State)
    requires Chained(wins)
    ensures Change(from, to) in EdgesOf(StatesOf(wins, t))
      <==> WonIn(wins, Event(t, StateChanged(from, to)))
  {
    if wins != [] {
      var n := |wins| - 1;
      var w := wins[n];
      assert Chained(wins[..n]) by {
        forall i | 0 <= i < n ensures FollowsOn(wins[..n], i) {
          assert FollowsOn(wins, i) && wins[..n][..i] == wins[..i];
        }
      }
      EdgesAreWins(wins[..n], t, from, to);
      assert wins == wins[..n] + [w];
      WonAppend(wins[..n], w, Event(t, StateChanged(from, to)));
      assert FollowsOn(wins, n);
      if w.t == t {
        var h := StatesOf(wins[..n], t);
        assert StatesOf(wins, t) == h + [w.to];
        assert (h + [w.to])[..|h|] == h;
        assert EdgesOf(h + [w.to]) == EdgesOf(h) + [Change(w.from, w.to)];
        assert Change(from, to) in EdgesOf(h + [w.to])
          <==> Change(from, to) in EdgesOf(h) || (w.from == from && w.to == to);
      } else {
        assert StatesOf(wins, t) == StatesOf(wins[..n], t);
      }
    }
  }

  /** The state_changed events of one transfer, in the order they were written. */
  function Told(events: seq<Event>, t: TransferId): seq<Change> {
    if events == [] then []
    else
      var e := events[|events| - 1];
      Told(events[..|events| - 1], t)
      + if e.transfer == t && e.step.StateChanged? then [Change(e.step.from, e.step.to)] else []
  }

  function Insert(c: Change, cs: seq<Change>): seq<Change> {
    if cs == [] || Rank(c.from) <= Rank(cs[0].from) then [c] + cs else [cs[0]] + Insert(c, cs[1..])
  }

  /** Order changes by the rank of the state they leave. */
  function SortByRank(cs: seq<Change>): seq<Change> {
    if cs == [] then [] else Insert(cs[|cs| - 1], SortByRank(cs[..|cs| - 1]))
  }

  ghost predicate Climbing(cs: seq<Change>) {
    forall i, j :: 0 <= i < j < |cs| ==> Rank(cs[i].from) < Rank(cs[j].from)
  }

  lemma {:induction false} InsertClimbs(c: Change, cs: seq<Change>)
    requires Climbing(cs) && forall x :: x in cs ==> Rank(x.from) != Rank(c.from)
    ensures Climbing(Insert(c, cs))
    ensures forall x :: x in Insert(c, cs) <==> x == c || x in cs
  {
    if cs != [] && Rank(c.from) > Rank(cs[0].from) {
      assert cs == [cs[0]] + cs[1..];
      InsertClimbs(c, cs[1..]);
      var rest := Insert(c, cs[1..]);
      forall k | 0 <= k < |rest| ensures Rank(cs[0].from) < Rank(rest[k].from) {
        assert rest[k] in rest;
      }
    }
  }

  /** No two changes leave the same state. */
  ghost predicate Apart(cs: seq<Change>) {
    forall i, j :: 0 <= i < j < |cs| ==> Rank(cs[i].from) != Rank(cs[j].from)
  }

  lemma {:induction false} SortClimbs(cs: seq<Change>)
    requires Apart(cs)
    ensures Climbing(SortByRank(cs))
    ensures forall x :: x in SortByRank(cs) <==> x in cs
  {
    if cs != [] {
      var n := |cs| - 1;
      SortClimbs(cs[..n]);
      assert cs == cs[..n] + [cs[n]];
      InsertClimbs(cs[n], SortByRank(cs[..n]));
    }
  }

  /** Two climbing sequences with the same members are the same. */
  lemma {:induction false} ClimbingIsUnique(a: seq<Change>, b: seq<Change>)
    requires Climbing(a) && Climbing(b) && forall x :: x in a <==> x in b
    ensures a == b
  {
    assert a != [] ==> a[0] in a && a[0] in b;
    assert b != [] ==> b[0] in b && b[0] in a;
    if a != [] {
      assert a == [a[0]] + a[1..] && b == [b[0]] + b[1..];
      forall x ensures x in a[1..] <==> x in b[1..] {
        assert x in a <==> x in b;
      }
      ClimbingIsUnique(a[1..], b[1..]);
    }
  }

  /** The edges of a path climb. */
  lemma {:induction false} EdgesClimb(h: seq<State>)
    requires IsPath(h)
    ensures Climbing(EdgesOf(h))
    ensures forall c :: c in EdgesOf(h) ==> Rank(c.from) < Rank(h[|h| - 1])
  {
    if |h| > 1 {
      var g := h[..|h| - 1];
      assert forall i :: 0 < i < |g| ==> Edge(g[i - 1], g[i]) by {
        forall i | 0 < i < |g| ensures Edge(g[i - 1], g[i]) {
          assert g[i - 1] == h[i - 1] && g[i] == h[i];
        }
      }
      EdgesClimb(g);
      assert Edge(h[|h| - 2], h[|h| - 1]);
    }
  }

  lemma {:induction false} ToldAreWritten(events: seq<Event>, t: TransferId, c: Change)
    ensures c in Told(events, t)
      <==> exists i :: 0 <= i < |events| && events[i] == Event(t, StateChanged(c.from, c.to))
  {
    if events != [] {
      var n := |events| - 1;
      ToldAreWritten(events[..n], t, c);
      if i :| 0 <= i < n && events[i] == Event(t, StateChanged(c.from, c.to)) {
        assert events[..n][i] == events[i];
      }
    }
  }

  /** Two state changes of the transfer. */
  predicate BothTell(e: Event, f: Event, t: TransferId) {
    e.transfer == t && f.transfer == t && e.step.StateChanged? && f.step.StateChanged?
  }

  /** Each told change comes from an event of its own. */
  lemma {:induction false} ToldApart(events: seq<Event>, t: TransferId)
    requires forall i, j :: 0 <= i < j < |events| && BothTell(events[i], events[j], t) ==>
      Rank(events[i].step.from) != Rank(events[j].step.from)
    ensures Apart(Told(events, t))
  {
    if events != [] {
      var n := |events| - 1;
      ToldApart(events[..n], t);
      forall c | c in Told(events[..n], t)
        ensures events[n].transfer == t && events[n].step.StateChanged? ==>
          Rank(c.from) != Rank(events[n].step.from)
      {
        ToldAreWritten(events[..n], t, c);
        var i :| 0 <= i < n && events[..n][i] == Event(t, StateChanged(c.from, c.to));
        assert events[i] == Event(t, StateChanged(c.from, c.to));
        assert BothTell(events[i], events[n], t) <== events[n].transfer == t && events[n].step.StateChanged?;
      }
    }
  }

  /** No event of the transfer is lost. */
  ghost predicate NoneLostOf(s: System, t: TransferId) {
    forall e: Event :: e.transfer == t ==> !Lost(s, e)
  }

  /** The state_changed events of the transfer, sorted by rank, are its whole history and end in its
      present state. */
  ghost predicate EventsTellAll(s: System, t: TransferId)
    requires t < |s.db.rows|
  {
    var told := SortByRank(Told(s.db.events, t));
    && told == EdgesOf(StatesOf(s.wins, t))
    && (told != [] ==> told[0].from == Requested && told[|told| - 1].to == s.db.rows[t].state)
    && (told == [] ==> s.db.rows[t].state == Requested)
  }

  /** In every run, whatever fails and in whatever order events were written: once no process owes an
      event of the transfer, its events rebuild its history exactly when none of them is lost. */
  lemma {:induction false} EventsRebuildHistory(s: System, actions: seq<Action>, t: TransferId)
    requires Initial(s) && t < |Run(s, actions).db.rows|
    requires forall pid :: 0 <= pid < |Run(s, actions).procs| && Owed(Run(s, actions).procs[pid]).Some? ==>
      Owed(Run(s, actions).procs[pid]).value.transfer != t
    ensures EventsTellAll(Run(s, actions), t) <==> NoneLostOf(Run(s, actions), t)
    ensures TrailKept(s, actions) ==> EventsTellAll(Run(s, actions), t)
  {
    NothingLostExactly(s, actions);
    QuiescentTrail(Run(s, actions), t);
  }

  lemma {:induction false} QuiescentTrail(s: System, t: TransferId)
    requires HistoryOk(s) && TrailOk(s) && t < |s.db.rows|
    requires forall pid :: 0 <= pid < |s.procs| && Owed(s.procs[pid]).Some? ==> Owed(s.procs[pid]).value.transfer != t
    ensures EventsTellAll(s, t) <==> NoneLostOf(s, t)
  {
    var h, told := StatesOf(s.wins, t), Told(s.db.events, t);
    WrittenApart(s, t);
    ToldApart(s.db.events, t);
    SortClimbs(told);
    assert PathTo(h, s.db.rows[t].state);
    EdgesClimb(h);
    EndsOfEdges(h);
    forall c: Change ensures c in told ==> c in EdgesOf(h)
             ensures Lost(s, Event(t, StateChanged(c.from, c.to))) <==> c in EdgesOf(h) && c !in told
    {
      ToldOrLost(s, t, c);
    }
    if NoneLostOf(s, t) {
      ClimbingIsUnique(SortByRank(told), EdgesOf(h));
    } else {
      var e: Event :| e.transfer == t && Lost(s, e);
      var c := Change(e.step.from, e.step.to);
      assert e == Event(t, StateChanged(c.from, c.to));
      assert c in EdgesOf(h) && c !in SortByRank(told);
    }
  }

  /** A change of a transfer nobody owes an event of is told or lost. */
  lemma {:induction false} ToldOrLost(s: System, t: TransferId, c: Change)
    requires HistoryOk(s) && TrailOk(s)
    requires forall pid :: 0 <= pid < |s.procs| && Owed(s.procs[pid]).Some? ==> Owed(s.procs[pid]).value.transfer != t
    ensures var e, edges := Event(t, StateChanged(c.from, c.to)), EdgesOf(StatesOf(s.wins, t));
      && (c in Told(s.db.events, t) ==> c in edges)
      && (Lost(s, e) <==> c in edges && c !in Told(s.db.events, t))
  {
    var e := Event(t, StateChanged(c.from, c.to));
    ToldAreWritten(s.db.events, t, c);
    EdgesAreWins(s.wins, t, c.from, c.to);
    assert !Pending(s, e);
    assert Written(s, e) <==> c in Told(s.db.events, t);
  }

  lemma {:induction false} EndsOfEdges(h: seq<State>)
    requires h != []
    ensures |EdgesOf(h)| == |h| - 1
    ensures |h| > 1 ==> EdgesOf(h)[0].from == h[0] && EdgesOf(h)[|h| - 2].to == h[|h| - 1]
  {
    if |h| > 1 {
      EndsOfEdges(h[..|h| - 1]);
    }
  }

  /** Different events of one transfer leave states of different rank. */
  lemma {:induction false} WrittenApart(s: System, t: TransferId)
    requires HistoryOk(s) && TrailOk(s)
    ensures forall i, j :: 0 <= i < j < |s.db.events| && BothTell(s.db.events[i], s.db.events[j], t) ==>
      Rank(s.db.events[i].step.from) != Rank(s.db.events[j].step.from)
  {
    forall i, j | 0 <= i < j < |s.db.events| && BothTell(s.db.events[i], s.db.events[j], t)
      ensures Rank(s.db.events[i].step.from) != Rank(s.db.events[j].step.from)
    {
      assert Won(s, s.db.events[i]) && Won(s, s.db.events[j]) && s.db.events[i] != s.db.events[j];
      WonApart(s, s.db.events[i], s.db.events[j]);
    }
  }

  lemma {:induction false} RanksApart(s: System, a: nat, b: nat)
    requires HistoryOk(s) && a < b < |s.wins| && s.wins[a].t == s.wins[b].t
    ensures Rank(s.wins[a].from) < Rank(s.wins[b].from)
  {
    assert Edge(s.wins[a].from, s.wins[a].to);
  }

  lemma {:induction false} WonApart(s: System, e: Event, f: Event)
    requires HistoryOk(s) && Won(s, e) && Won(s, f) && e != f && e.transfer == f.transfer
    ensures e.step.StateChanged? && f.step.StateChanged? && Rank(e.step.from) != Rank(f.step.from)
  {
    var a :| 0 <= a < |s.wins| && EventOf(s.wins[a]) == e;
    var b :| 0 <= b < |s.wins| && EventOf(s.wins[b]) == f;
    if a < b {
      RanksApart(s, a, b);
    } else {
      RanksApart(s, b, a);
    }
  }
}
