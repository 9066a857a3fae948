/** A handler run as a method over one database is a run of the interleaved system: its process begins
    and then takes turns with nothing in between.  So what holds in every reachable state of the system
    holds before and after each handler, and at every call inside. */
module Refinement {
  import opened Tables
  import opened Operations
  import opened Handlers
  import opened Store
  import opened System
  import opened Accounting
  import opened History

  function Turns(pid: nat, choices: seq<Choice>): seq<Action> {
    seq(|choices|, i requires 0 <= i < |choices| => Turn(pid, choices[i].answer, choices[i].fault))
  }

  function AloneActions(s: System, p: Proc, choices: seq<Choice>): seq<Action> {
    [Begin(p)] + Turns(|s.procs|, choices)
  }

  /** The same turn, alone and in the system. */
  lemma {:induction false} TurnAlone(s: System, n: nat, p: Proc, c: Choice)
    requires |s.procs| == n + 1 && s.procs[n] == p
    ensures var (db, r) := Execute(s.db, NextCall(p), c.answer, c.fault);
      var s' := Apply(s, Turn(n, c.answer, c.fault));
      s'.db == db && |s'.procs| == n + 1 && s'.procs[..n] == s.procs[..n] && s'.procs[n] == Resume(p, r)
  {
  }

  lemma {:induction false} RunAloneLast(db: Db, p: Proc, choices: seq<Choice>)
    requires choices != []
    ensures var (db1, p1) := RunAlone(db, p, choices[..|choices| - 1]);
      var c := choices[|choices| - 1];
      var (db2, r) := Execute(db1, NextCall(p1), c.answer, c.fault);
      RunAlone(db, p, choices) == (db2, Resume(p1, r))
  {
  }

  /** s' is s with one process more, which has taken the turns of p alone. */
  ghost predicate IsAlone(s: System, s': System, p: Proc, choices: seq<Choice>) {
    && |s'.procs| == |s.procs| + 1 && s'.procs[..|s.procs|] == s.procs
    && (s'.db, s'.procs[|s.procs|]) == RunAlone(s.db, p, choices)
  }

  lemma {:induction false} NextAlone(s: System, mid: System, p: Proc, choices: seq<Choice>)
    requires choices != [] && IsAlone(s, mid, p, choices[..|choices| - 1])
    ensures var c := choices[|choices| - 1]; IsAlone(s, Apply(mid, Turn(|s.procs|, c.answer, c.fault)), p, choices)
  {
    RunAloneLast(s.db, p, choices);
    TurnAlone(mid, |s.procs|, mid.procs[|s.procs|], choices[|choices| - 1]);
  }

  lemma {:induction false} AloneIsARun(s: System, p: Proc, choices: seq<Choice>)
    requires IsStart(p)
    ensures IsAlone(s, Run(s, AloneActions(s, p, choices)), p, choices)
  {
    var actions := AloneActions(s, p, choices);
    RunLast(s, actions);
    if choices == [] {
      assert actions[..|actions| - 1] == [];
    } else {
      var before := choices[..|choices| - 1];
      assert actions[..|actions| - 1] == AloneActions(s, p, before);
      AloneIsARun(s, p, before);
      NextAlone(s, Run(s, AloneActions(s, p, before)), p, choices);
    }
  }

  /** Where a method stands, its process stands in a run of the system. */
  lemma {:induction false} ExecutionIsARun(db: Database, s: System, before: seq<Action>) returns (actions: seq<Action>)
    requires db.Valid() && IsStart(db.start) && Run(s, before).db == db.origin
    ensures before <= actions
    ensures var s' := Run(s, actions); s'.db == db.Snapshot() && db.worker in s'.procs
  {
    var mid := Run(s, before);
    AloneIsARun(mid, db.start, db.choices);
    var more := AloneActions(mid, db.start, db.choices);
    RunSplits(s, before, more);
    actions := before + more;
    var s' := Run(mid, more);
    assert s'.procs[|mid.procs|] == db.worker;
  }

  /** So at every call of every handler method the ledger is balanced. */
  lemma {:induction false} ExecutionsKeepTheBooks(db: Database, s: System, before: seq<Action>)
    requires db.Valid() && IsStart(db.start) && Initial(s) && Run(s, before).db == db.origin
    ensures IsBalanced(db.ledger)
  {
    var actions := ExecutionIsARun(db, s, before);
    LedgerIsBalanced(s, actions);
  }
}
