/** Any number of handlers interleaved over one database.  There is no transaction around a handler:
    a turn of a process is one call.  A process that gets no further turn has stopped where it is.
    Settlement triggers contribute their inserts and links as separate actions. */
module System {
  import opened States
  import opened Tables
  import opened Ledger
  import opened Operations
  import opened Handlers

  /** Who won a state change; an operator is marked with the state of the row it had read. */
  datatype Actor = ByDeposit | ByOperator(readState: State) | ByReturn | BySettlement

  datatype Win = Win(t: TransferId, from: State, to: State, actor: Actor, pid: nat)

  /** The database and the processes, with three records kept for stating properties: the updates
      of `state` that matched a row, the pairs committed to the ledger, and what each deposit had
      captured when it created its row. */
  datatype System = System(
    db: Db,
    procs: seq<Proc>,
    wins: seq<Win>,
    posted: seq<Pair>,
    captured: seq<Detail>)

  datatype Action =
    | Begin(p: Proc)
    | Turn(pid: nat, answer: Answer, fault: Fault)
    | OpenBatch(batch: Batch)
    | LinkRow(t: TransferId, b: BatchId)
    | MarkSubmitted(b: BatchId)

  function ActorOf(p: Proc): Actor {
    match p
    case Deposit(_, _, _, _, _) => ByDeposit
    case Operator(_, _, _, _, _, _, read) => ByOperator(read.state)
    case Return(_, _, _, _, _) => ByReturn
    case Acknowledge(_, _, _, _, _, _) => BySettlement
  }

  function NewWins(db: Db, call: Call, fault: Fault, actor: Actor, pid: nat): seq<Win> {
    if call.UpdateState? && fault != Refused && LockHolds(db, call.t, call.from)
    then [Win(call.t, call.from, call.to, actor, pid)] else []
  }

  function NewPairs(db: Db, call: Call, fault: Fault): seq<Pair> {
    if call.Post? && fault != Refused && PostCommits(db, call.pair) then [call.pair] else []
  }

  function NewCaptured(db: Db, db': Db, p: Proc): seq<Detail> {
    if p.Deposit? && |db'.rows| > |db.rows| then [p.d] else []
  }

  function TakeTurn(s: System, pid: nat, answer: Answer, fault: Fault): System
    requires pid < |s.procs|
  {
    var p := s.procs[pid];
    var call := NextCall(p);
    var (db', r) := Execute(s.db, call, answer, fault);
    System(
      db',
      s.procs[pid := Resume(p, r)],
      s.wins + NewWins(s.db, call, fault, ActorOf(p), pid),
      s.posted + NewPairs(s.db, call, fault),
      s.captured + NewCaptured(s.db, db', p))
  }

  /** The rows a settlement trigger has listed were FundsPosted when it listed them. */
  predicate MayLink(s: System, t: TransferId, b: BatchId) {
    t < |s.db.rows| && b < |s.db.batches| && OncePosted(s.db.rows[t].state)
  }

  function Apply(s: System, a: Action): System {
    match a
    case Begin(p) => if IsStart(p) then s.(procs := s.procs + [p]) else s
    case Turn(pid, answer, fault) => if pid < |s.procs| then TakeTurn(s, pid, answer, fault) else s
    case OpenBatch(batch) => s.(db := s.db.(batches := s.db.batches + [batch.(status := Pending)]))
    case LinkRow(t, b) =>
      if MayLink(s, t, b) then s.(db := WithRow(s.db, t, s.db.rows[t].(batch := Some(b)))) else s
    case MarkSubmitted(b) =>
      if b < |s.db.batches|
      then s.(db := s.db.(batches := s.db.batches[b := s.db.batches[b].(status := Submitted)])) else s
  }

  function Run(s: System, actions: seq<Action>): System {
    if actions == [] then s else Apply(Run(s, actions[..|actions| - 1]), actions[|actions| - 1])
  }

  /** Accounts and correspondents are seeded; nothing else exists and nothing runs. */
  predicate Initial(s: System) {
    && s.db.rows == [] && s.db.ledger == [] && s.db.events == [] && s.db.batches == []
    && s.procs == [] && s.wins == [] && s.posted == [] && s.captured == []
  }
}
