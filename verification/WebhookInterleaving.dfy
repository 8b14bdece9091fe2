/**
 * Expense events processed by overlapping workers. A worker keeps its own copy of the attempts, takes
 * one read or one write at a time, and may be gone after any of them; the reaper reads and writes in
 * separate steps too; any number of jobs may run for one event. What survives all of it is that each
 * expense is booked at most once, and is booked when its event says so.
 */
module WebhookInterleaving {
  import opened WebhookStatus

  /** What the finished run reported: its expense has a Bank Transaction, or it was held back, or not handled at all. */
  datatype Report = Unreported | Booked | HeldBack | NotHandled

  /** A stored event: the payload's expense id, and the fields the workers write. */
  datatype Event = Event(expenseId: string, status: Status, attempts: nat, report: Report)

  /** Where a worker or a reaper stands; `event` is the event it works on. */
  datatype Task =
    | Queued(event: string)
    | Loaded(event: string, attempts: nat)       // read the event; about to write the status
    | Claiming(event: string, attempts: nat)     // about to write the attempts
    | Importing(event: string, attempts: nat)    // about to look the expense up
    | Inserting(event: string, attempts: nat)    // found no transaction; about to insert one
    | Continuing(event: string, attempts: nat)   // has its transaction; receipts and documents follow
    | Finishing(event: string, attempts: nat, report: Report)   // about to write the final status
    | Recording(event: string, attempts: nat)    // status written; time and result still to write
    | Failing(event: string, attempts: nat)      // about to write Retrying or Dead Letter
    | ReaperListed(event: string)
    | ReaperLoaded(event: string, attempts: nat)

  /** Bank Transactions map their name to the expense id they carry, "" for those of other feeds. */
  datatype State = State(
    events: map<string, Event>, transactions: map<nat, string>, nextTransaction: nat, tasks: map<nat, Task>)

  /** What a step's environment decides. */
  datatype Choice = Succeed | Hold | Skip | Fail

  datatype Step =
    | Deliver(id: string, expenseId: string)   // a webhook delivery stores its event once
    | StartJob(task: nat, id: string)          // a job for an event, whatever its status
    | StartReaper(task: nat, id: string)       // the reaper lists an event that looks stale
    | Advance(task: nat, choice: Choice)       // a task takes its next read or write
    | Vanish(task: nat)                        // a task is gone
    | OtherTransaction                         // some other feed inserts a transaction

  predicate HasTransaction(s: State, expenseId: string) {
    expenseId in s.transactions.Values
  }

  function SetEvent(s: State, id: string, e: Event): State {
    s.(events := s.events[id := e])
  }

  function Go(s: State, task: nat, t: Task): State {
    s.(tasks := s.tasks[task := t])
  }

  function Done(s: State, task: nat): State {
    s.(tasks := s.tasks - {task})
  }

  /** The next read or write of a task. */
  function Advanced(s: State, max: nat, task: nat, choice: Choice): State
    requires task in s.tasks && s.tasks[task].event in s.events
  {
    var t := s.tasks[task];
    var e := s.events[t.event];
    match t
    case Queued(id) =>
      if e.status in {Processed, Ignored} then Done(s, task) else Go(s, task, Loaded(id, e.attempts))
    case Loaded(id, attempts) =>
      Go(SetEvent(s, id, e.(status := Processing)), task, Claiming(id, attempts))
    case Claiming(id, attempts) =>
      Go(SetEvent(s, id, e.(attempts := attempts + 1)), task, Importing(id, attempts + 1))
    case Importing(id, attempts) =>
      if choice == Fail then Go(s, task, Failing(id, attempts))
      else if choice == Skip then Go(s, task, Finishing(id, attempts, NotHandled))
      else if e.expenseId == "" then Go(s, task, Finishing(id, attempts, HeldBack))
      else if choice == Hold then Go(s, task, Finishing(id, attempts, HeldBack))
      else if HasTransaction(s, e.expenseId) then Go(s, task, Continuing(id, attempts))
      else Go(s, task, Inserting(id, attempts))
    case Inserting(id, attempts) =>
      if choice == Fail || HasTransaction(s, e.expenseId) then Go(s, task, Failing(id, attempts))
      else Go(s.(transactions := s.transactions[s.nextTransaction := e.expenseId],
                 nextTransaction := s.nextTransaction + 1),
              task, Continuing(id, attempts))
    case Continuing(id, attempts) =>
      if choice == Fail then Go(s, task, Failing(id, attempts)) else Go(s, task, Finishing(id, attempts, Booked))
    case Finishing(id, attempts, report) =>
      Go(SetEvent(s, id, e.(status := if report == NotHandled then Ignored else Processed, report := report)),
         task, Recording(id, attempts))
    case Recording(id, attempts) =>
      if choice == Fail then Go(s, task, Failing(id, attempts)) else Done(s, task)
    case Failing(id, attempts) =>
      Done(SetEvent(s, id, e.(status := if attempts < max then Retrying else DeadLetter)), task)
    case ReaperListed(id) => Go(s, task, ReaperLoaded(id, e.attempts))
    case ReaperLoaded(id, attempts) =>
      Done(SetEvent(s, id, e.(status := if attempts >= max then DeadLetter else Retrying)), task)
  }

  /** One step of the system; a step that is not possible changes nothing. */
  function Next(s: State, max: nat, step: Step): State {
    match step
    case Deliver(id, expenseId) =>
      if id in s.events then s else SetEvent(s, id, Event(expenseId, Received, 0, Unreported))
    case StartJob(task, id) =>
      if task in s.tasks || id !in s.events then s else Go(s, task, Queued(id))
    case StartReaper(task, id) =>
      if task in s.tasks || id !in s.events || s.events[id].status != Processing then s
      else Go(s, task, ReaperListed(id))
    case Advance(task, choice) =>
      if task in s.tasks && s.tasks[task].event in s.events then Advanced(s, max, task, choice) else s
    case Vanish(task) => Done(s, task)
    case OtherTransaction =>
      s.(transactions := s.transactions[s.nextTransaction := ""], nextTransaction := s.nextTransaction + 1)
  }

  function Run(s: State, max: nat, steps: seq<Step>): State
    decreases |steps|
  {
    if steps == [] then s else Run(Next(s, max, steps[0]), max, steps[1..])
  }

  const INITIAL := State(map[], map[], 0, map[])

  // ---------------------------------------------------------------- what every reachable state satisfies

  /** No two transactions carry the same expense id. */
  ghost predicate BookedAtMostOnce(s: State) {
    forall a, b | a in s.transactions && b in s.transactions && s.transactions[a] != ""
                  && s.transactions[a] == s.transactions[b] :: a == b
  }

  /** An event reported as booked has its transaction. */
  ghost predicate BookedWhenReported(s: State) {
    forall id | id in s.events && s.events[id].report == Booked ::
      s.events[id].expenseId != "" && HasTransaction(s, s.events[id].expenseId)
  }

  /** A task past its booking has the transaction it is about to report. */
  predicate TaskIsHonest(s: State, t: Task) {
    && t.event in s.events
    && (t.Inserting? ==> s.events[t.event].expenseId != "")
    && (t.Continuing? || (t.Finishing? && t.report == Booked) ==>
          s.events[t.event].expenseId != "" && HasTransaction(s, s.events[t.event].expenseId))
    && (t.Finishing? ==> t.report != Unreported)
  }

  /** A finished event carries the report of the run that finished it. */
  ghost predicate FinishedMeansReported(s: State) {
    forall id | id in s.events && s.events[id].status == Processed :: s.events[id].report in {Booked, HeldBack}
  }

  ghost predicate Sound(s: State) {
    && (forall n | n in s.transactions :: n < s.nextTransaction)
    && BookedAtMostOnce(s) && BookedWhenReported(s) && FinishedMeansReported(s)
    && (forall n | n in s.tasks :: TaskIsHonest(s, s.tasks[n]))
  }

  /** The expenses that are booked: the set the transactions stand for. */
  function Expenses(s: State): set<string> {
    s.transactions.Values - {""}
  }

  lemma MoreTransactionsKeepHonesty(s: State, s': State, t: Task)
    requires TaskIsHonest(s, t)
    requires s.events.Keys <= s'.events.Keys
    requires forall id | id in s.events :: s'.events[id].expenseId == s.events[id].expenseId
    requires s.transactions.Values <= s'.transactions.Values
    ensures TaskIsHonest(s', t)
  {
  }

  /** What no step undoes: transactions stay, under their names; events keep their expense. */
  ghost predicate Grows(s: State, s': State) {
    && s.events.Keys <= s'.events.Keys
    && (forall id | id in s.events :: s'.events[id].expenseId == s.events[id].expenseId)
    && (forall n | n in s.transactions :: n in s'.transactions && s'.transactions[n] == s.transactions[n])
  }

  lemma GrowingKeepsValues(s: State, s': State)
    requires Grows(s, s')
    ensures s.transactions.Values <= s'.transactions.Values
  {
    forall x | x in s.transactions.Values ensures x in s'.transactions.Values {
      var n :| n in s.transactions && s.transactions[n] == x;
      assert s'.transactions[n] == x;
    }
  }

  lemma StepGrows(s: State, max: nat, step: Step)
    requires Sound(s)
    ensures Grows(s, Next(s, max, step))
  {
    if step.Advance? && step.task in s.tasks && s.tasks[step.task].event in s.events {
      AdvanceGrows(s, max, step.task, step.choice);
    }
  }

  lemma AdvanceGrows(s: State, max: nat, task: nat, choice: Choice)
    requires Sound(s) && task in s.tasks && s.tasks[task].event in s.events
    ensures var s' := Advanced(s, max, task, choice);
            && Grows(s, s')
            && (s'.transactions == s.transactions
                || (s.tasks[task].Inserting? && !HasTransaction(s, s.events[s.tasks[task].event].expenseId)
                    && s'.transactions == s.transactions[s.nextTransaction := s.events[s.tasks[task].event].expenseId]))
  {
    if !s.tasks[task].Inserting? {
      OnlyInsertingInserts(s, max, task, choice);
    }
    AdvanceKeepsExpenses(s, max, task, choice);
  }

  lemma OnlyInsertingInserts(s: State, max: nat, task: nat, choice: Choice)
    requires task in s.tasks && s.tasks[task].event in s.events && !s.tasks[task].Inserting?
    ensures Advanced(s, max, task, choice).transactions == s.transactions
  {
  }

  lemma AdvanceKeepsExpenses(s: State, max: nat, task: nat, choice: Choice)
    requires task in s.tasks && s.tasks[task].event in s.events
    ensures var s' := Advanced(s, max, task, choice);
            && s'.events.Keys == s.events.Keys
            && forall id | id in s.events :: s'.events[id].expenseId == s.events[id].expenseId
  {
  }

  /** A step that changes the transactions inserts one: for an expense not booked yet, or for another feed. */
  lemma StepInserts(s: State, max: nat, step: Step) returns (x: string)
    requires Sound(s) && Next(s, max, step).transactions != s.transactions
    ensures Next(s, max, step).transactions == s.transactions[s.nextTransaction := x]
    ensures Next(s, max, step).nextTransaction == s.nextTransaction + 1 && s.nextTransaction !in s.transactions
    ensures x != "" ==> !HasTransaction(s, x) && exists id :: id in s.events && s.events[id].expenseId == x
  {
    x := "";
    if step.Advance? && step.task in s.tasks && s.tasks[step.task].event in s.events {
      AdvanceGrows(s, max, step.task, step.choice);
      x := s.events[s.tasks[step.task].event].expenseId;
    }
  }

  /**
   * Refinement: against the set of booked expenses every step either changes nothing or books one
   * expense that was not booked, on behalf of a stored event that carries it.
   */
  lemma StepBooksAtMostOne(s: State, max: nat, step: Step)
    requires Sound(s)
    ensures var s' := Next(s, max, step);
            || Expenses(s') == Expenses(s)
            || (exists id | id in s.events ::
                  s.events[id].expenseId !in Expenses(s) && Expenses(s') == Expenses(s) + {s.events[id].expenseId})
  {
    if Next(s, max, step).transactions != s.transactions {
      var x := StepInserts(s, max, step);
      InsertedValues(s.transactions, s.nextTransaction, x);
    }
  }

  lemma InsertedValues(m: map<nat, string>, n: nat, x: string)
    requires n !in m
    ensures m[n := x].Values == m.Values + {x}
  {
    var m' := m[n := x];
    forall y | y in m.Values + {x} ensures y in m'.Values {
      if y == x {
        assert m'[n] == x;
      } else {
        var k :| k in m && m[k] == y;
        assert m'[k] == y;
      }
    }
  }

  lemma StepKeepsTransactionsUnique(s: State, max: nat, step: Step)
    requires Sound(s)
    ensures var s' := Next(s, max, step);
            BookedAtMostOnce(s') && forall n | n in s'.transactions :: n < s'.nextTransaction
  {
    if Next(s, max, step).transactions != s.transactions {
      var x := StepInserts(s, max, step);
    } else {
      assert Next(s, max, step).nextTransaction >= s.nextTransaction;
    }
  }

  /** Apart from the task that advances, tasks stay as they are or have just started. */
  lemma OtherTasksStay(s: State, max: nat, step: Step, n: nat)
    requires n in Next(s, max, step).tasks && !(step.Advance? && step.task == n)
    ensures var t := Next(s, max, step).tasks[n];
            (n in s.tasks && s.tasks[n] == t) || ((t.Queued? || t.ReaperListed?) && t.event in s.events)
  {
  }

  lemma AdvancedTaskIsHonest(s: State, max: nat, task: nat, choice: Choice)
    requires Sound(s) && task in s.tasks && s.tasks[task].event in s.events
    requires task in Advanced(s, max, task, choice).tasks
    ensures TaskIsHonest(Advanced(s, max, task, choice), Advanced(s, max, task, choice).tasks[task])
  {
    var t, s' := s.tasks[task], Advanced(s, max, task, choice);
    assert TaskIsHonest(s, t);
    AdvanceGrows(s, max, task, choice);
    GrowingKeepsValues(s, s');
    if t.Inserting? && s'.tasks[task].Continuing? {
      assert s'.transactions[s.nextTransaction] == s.events[t.event].expenseId;
    }
  }

  lemma StepKeepsTasksHonest(s: State, max: nat, step: Step)
    requires Sound(s)
    ensures var s' := Next(s, max, step); forall n | n in s'.tasks :: TaskIsHonest(s', s'.tasks[n])
  {
    var s' := Next(s, max, step);
    StepGrows(s, max, step);
    GrowingKeepsValues(s, s');
    forall n | n in s'.tasks ensures TaskIsHonest(s', s'.tasks[n]) {
      if step.Advance? && step.task == n {
        AdvancedTaskIsHonest(s, max, n, step.choice);
      } else {
        OtherTasksStay(s, max, step, n);
        if n in s.tasks && s.tasks[n] == s'.tasks[n] {
          MoreTransactionsKeepHonesty(s, s', s.tasks[n]);
        }
      }
    }
  }

  /** Only the final write of a run reports, and only it makes an event processed. */
  lemma EventAfter(s: State, max: nat, step: Step, id: string)
    requires id in s.events
    ensures var e, e' := s.events[id], Next(s, max, step).events[id];
            || (e'.report == e.report && e'.status in {e.status, Processing, Retrying, DeadLetter})
            || (step.Advance? && step.task in s.tasks && s.tasks[step.task].Finishing? && s.tasks[step.task].event == id
                && e'.report == s.tasks[step.task].report && (e'.status == Processed ==> e'.report != NotHandled))
  {
  }

  lemma StepKeepsReports(s: State, max: nat, step: Step)
    requires Sound(s)
    ensures BookedWhenReported(Next(s, max, step)) && FinishedMeansReported(Next(s, max, step))
  {
    var s' := Next(s, max, step);
    StepGrows(s, max, step);
    GrowingKeepsValues(s, s');
    forall id | id in s'.events
      ensures s'.events[id].report == Booked ==>
                s'.events[id].expenseId != "" && HasTransaction(s', s'.events[id].expenseId)
      ensures s'.events[id].status == Processed ==> s'.events[id].report in {Booked, HeldBack}
    {
      if id in s.events {
        EventAfter(s, max, step, id);
        if step.Advance? && step.task in s.tasks {
          assert TaskIsHonest(s, s.tasks[step.task]);
        }
      }
    }
  }

  lemma StepIsSound(s: State, max: nat, step: Step)
    requires Sound(s)
    ensures Sound(Next(s, max, step))
  {
    StepKeepsTransactionsUnique(s, max, step);
    StepKeepsTasksHonest(s, max, step);
    StepKeepsReports(s, max, step);
  }

  /** Every reachable state is sound: from any sound state, along any interleaving. */
  lemma {:induction false} EveryRunIsSound(s: State, max: nat, steps: seq<Step>)
    requires Sound(s)
    ensures Sound(Run(s, max, steps)) && Grows(s, Run(s, max, steps))
    decreases |steps|
  {
    if steps != [] {
      StepIsSound(s, max, steps[0]);
      StepGrows(s, max, steps[0]);
      EveryRunIsSound(Next(s, max, steps[0]), max, steps[1..]);
    }
  }

  /**
   * Exactly-once booking: after any run from the empty system an expense has one transaction or
   * none, and a processed event whose handler was not held has exactly one.
   */
  lemma ExactlyOnceBooking(max: nat, steps: seq<Step>, id: string)
    ensures var s := Run(INITIAL, max, steps);
            && (id in s.events && s.events[id].status == Processed && s.events[id].report != HeldBack
                ==> exists n | n in s.transactions ::
                      s.transactions[n] == s.events[id].expenseId
                      && forall m | m in s.transactions && s.transactions[m] == s.events[id].expenseId :: m == n)
  {
    var s := Run(INITIAL, max, steps);
    EveryRunIsSound(INITIAL, max, steps);
    if id in s.events && s.events[id].status == Processed && s.events[id].report != HeldBack {
      var x := s.events[id].expenseId;
      assert s.events[id].report == Booked;
      var n :| n in s.transactions && s.transactions[n] == x;
    }
  }

  // ---------------------------------------------------------------- what interleaving does not preserve

  ghost predicate Reachable(s: State, max: nat) {
    exists steps: seq<Step> :: Run(INITIAL, max, steps) == s
  }

  lemma {:induction false} RunAppend(s: State, max: nat, steps: seq<Step>, step: Step)
    ensures Run(s, max, steps + [step]) == Next(Run(s, max, steps), max, step)
    decreases |steps|
  {
    if steps == [] {
      assert Run(Next(s, max, step), max, []) == Next(s, max, step);
    } else {
      assert (steps + [step])[1..] == steps[1..] + [step];
      RunAppend(Next(s, max, steps[0]), max, steps[1..], step);
    }
  }

  lemma StepReaches(s: State, max: nat, step: Step, s': State)
    requires Reachable(s, max) && Next(s, max, step) == s'
    ensures Reachable(s', max)
  {
    var steps: seq<Step> :| Run(INITIAL, max, steps) == s;
    RunAppend(INITIAL, max, steps, step);
  }

  /** Two jobs of one expense event: the event, and where each job stands. */
  function TwoJobs(e: Event, a: Task, b: Task): State {
    State(map["e" := e], map[], 0, map[0 := a, 1 := b])
  }

  /** The second job claims the event and is about to report a failure; the first has not started. */
  lemma SecondJobIsAboutToFail()
    ensures Reachable(TwoJobs(Event("x", Processing, 1, Unreported), Queued("e"), Failing("e", 1)), 5)
  {
    var e := Event("x", Received, 0, Unreported);
    assert Run(INITIAL, 5, []) == INITIAL;
    var s1 := State(map["e" := e], map[], 0, map[]);
    var s2 := s1.(tasks := map[0 := Queued("e")]);
    StepReaches(INITIAL, 5, Deliver("e", "x"), s1);
    StepReaches(s1, 5, StartJob(0, "e"), s2);
    StepReaches(s2, 5, StartJob(1, "e"), TwoJobs(e, Queued("e"), Queued("e")));
    SecondJobClaims(e, Queued("e"));
  }

  lemma SecondJobClaims(e: Event, q: Task)
    requires e == Event("x", Received, 0, Unreported) && q == Queued("e") && Reachable(TwoJobs(e, q, q), 5)
    ensures Reachable(TwoJobs(Event("x", Processing, 1, Unreported), q, Failing("e", 1)), 5)
  {
    var e1 := e.(status := Processing);
    StepReaches(TwoJobs(e, q, q), 5, Advance(1, Succeed), TwoJobs(e, q, Loaded("e", 0)));
    StepReaches(TwoJobs(e, q, Loaded("e", 0)), 5, Advance(1, Succeed), TwoJobs(e1, q, Claiming("e", 0)));
    SecondJobFails(e1, q);
  }

  lemma SecondJobFails(e: Event, q: Task)
    requires e == Event("x", Processing, 0, Unreported) && q == Queued("e")
             && Reachable(TwoJobs(e, q, Claiming("e", 0)), 5)
    ensures Reachable(TwoJobs(Event("x", Processing, 1, Unreported), q, Failing("e", 1)), 5)
  {
    var e1 := e.(attempts := 1);
    StepReaches(TwoJobs(e, q, Claiming("e", 0)), 5, Advance(1, Succeed), TwoJobs(e1, q, Importing("e", 1)));
    StepReaches(TwoJobs(e1, q, Importing("e", 1)), 5, Advance(1, Fail), TwoJobs(e1, q, Failing("e", 1)));
  }

  lemma FirstJobClaims(e: Event, f: Task)
    requires e == Event("x", Processing, 1, Unreported) && f == Failing("e", 1)
             && Reachable(TwoJobs(e, Queued("e"), f), 5)
    ensures Reachable(TwoJobs(e.(attempts := 2), Importing("e", 2), f), 5)
  {
    StepReaches(TwoJobs(e, Queued("e"), f), 5, Advance(0, Succeed), TwoJobs(e, Loaded("e", 1), f));
    StepReaches(TwoJobs(e, Loaded("e", 1), f), 5, Advance(0, Succeed), TwoJobs(e, Claiming("e", 1), f));
    FirstJobCounts(e, f);
  }

  lemma FirstJobCounts(e: Event, f: Task)
    requires e == Event("x", Processing, 1, Unreported) && f == Failing("e", 1)
    requires Reachable(TwoJobs(e, Claiming("e", 1), f), 5)
    ensures Reachable(TwoJobs(e.(attempts := 2), Importing("e", 2), f), 5)
  {
    StepReaches(TwoJobs(e, Claiming("e", 1), f), 5, Advance(0, Succeed),
                TwoJobs(e.(attempts := 2), Importing("e", 2), f));
  }

  lemma FirstJobFinishes(e: Event, f: Task)
    requires e == Event("x", Processing, 2, Unreported) && f == Failing("e", 1)
    requires Reachable(TwoJobs(e, Importing("e", 2), f), 5)
    ensures Reachable(TwoJobs(Event("x", Processed, 2, HeldBack), Recording("e", 2), f), 5)
  {
    StepReaches(TwoJobs(e, Importing("e", 2), f), 5, Advance(0, Hold), TwoJobs(e, Finishing("e", 2, HeldBack), f));
    StepReaches(TwoJobs(e, Finishing("e", 2, HeldBack), f), 5, Advance(0, Succeed),
                TwoJobs(Event("x", Processed, 2, HeldBack), Recording("e", 2), f));
  }

  /**
   * Processed is not final while jobs overlap: a second job that fails late puts the event back to
   * retrying after the first has processed it.
   */
  lemma ProcessedCanBeOverwritten()
    ensures exists s: State, step: Step ::
              && Reachable(s, 5) && "e" in s.events && s.events["e"].status == Processed
              && "e" in Next(s, 5, step).events && Next(s, 5, step).events["e"].status == Retrying
  {
    var f := Failing("e", 1);
    SecondJobIsAboutToFail();
    FirstJobClaims(Event("x", Processing, 1, Unreported), f);
    FirstJobFinishes(Event("x", Processing, 2, Unreported), f);
    LateFailureOverwrites();
    var last := TwoJobs(Event("x", Processed, 2, HeldBack), Recording("e", 2), f);
    assert Reachable(last, 5) && "e" in last.events;
  }

  lemma LateFailureOverwrites()
    ensures var last := TwoJobs(Event("x", Processed, 2, HeldBack), Recording("e", 2), Failing("e", 1));
            var events := Next(last, 5, Advance(1, Succeed)).events;
            "e" in events && events["e"].status == Retrying
  {
  }

  // ---------------------------------------------------------------- when Processed is final

  /** Every task on the event has yet to read it. */
  ghost predicate NoneUnderWay(s: State, id: string) {
    forall n | n in s.tasks && s.tasks[n].event == id :: s.tasks[n].Queued?
  }

  predicate IsProcessed(s: State, id: string) {
    id in s.events && s.events[id].status == Processed
  }

  lemma StepKeepsProcessed(s: State, max: nat, step: Step, id: string)
    requires IsProcessed(s, id) && NoneUnderWay(s, id)
    ensures IsProcessed(Next(s, max, step), id) && NoneUnderWay(Next(s, max, step), id)
  {
  }

  lemma {:induction false} RunKeepsProcessed(s: State, max: nat, steps: seq<Step>, id: string)
    requires IsProcessed(s, id) && NoneUnderWay(s, id)
    ensures IsProcessed(Run(s, max, steps), id)
    decreases |steps|
  {
    if steps != [] {
      StepKeepsProcessed(s, max, steps[0], id);
      RunKeepsProcessed(Next(s, max, steps[0]), max, steps[1..], id);
    }
  }

  /** How many steps at most, failing where it can, take a task to its next write of another status. */
  function StepsToUndo(t: Task): nat {
    match t
    case Queued(_) => 0
    case Loaded(_, _) => 1
    case Failing(_, _) => 1
    case ReaperLoaded(_, _) => 1
    case ReaperListed(_) => 2
    case Importing(_, _) => 2
    case Inserting(_, _) => 2
    case Continuing(_, _) => 2
    case Recording(_, _) => 2
    case Claiming(_, _) => 3
    case Finishing(_, _, _) => 3
  }

  lemma FailingStep(s: State, max: nat, n: nat)
    requires n in s.tasks && s.tasks[n].event in s.events && !s.tasks[n].Queued?
    ensures var id, s' := s.tasks[n].event, Next(s, max, Advance(n, Fail));
            || !IsProcessed(s', id)
            || (n in s'.tasks && s'.tasks[n].event == id && !s'.tasks[n].Queued?
                && id in s'.events && StepsToUndo(s'.tasks[n]) < StepsToUndo(s.tasks[n]))
  {
  }

  lemma {:induction false} UnderWayCanUndo(s: State, max: nat, n: nat) returns (steps: seq<Step>)
    requires n in s.tasks && s.tasks[n].event in s.events && !s.tasks[n].Queued?
    ensures !IsProcessed(Run(s, max, steps), s.tasks[n].event)
    decreases StepsToUndo(s.tasks[n])
  {
    var step := Advance(n, Fail);
    var s' := Next(s, max, step);
    FailingStep(s, max, n);
    if IsProcessed(s', s.tasks[n].event) {
      steps := UnderWayCanUndo(s', max, n);
      assert ([step] + steps)[1..] == steps;
      steps := [step] + steps;
    } else {
      steps := [step];
      assert [step][1..] == [];
    }
  }

  /**
   * A processed event stays processed whatever happens next if and only if every task on it, worker
   * or reaper, has yet to read it.
   */
  lemma ProcessedIsFinalExactlyWhen(s: State, max: nat, id: string)
    requires IsProcessed(s, id)
    ensures (forall steps: seq<Step> :: IsProcessed(Run(s, max, steps), id)) <==> NoneUnderWay(s, id)
  {
    if NoneUnderWay(s, id) {
      forall steps: seq<Step> ensures IsProcessed(Run(s, max, steps), id) {
        RunKeepsProcessed(s, max, steps, id);
      }
    } else {
      var n :| n in s.tasks && s.tasks[n].event == id && !s.tasks[n].Queued?;
      var steps := UnderWayCanUndo(s, max, n);
    }
  }

  /** One job of one expense event. */
  function OneJob(e: Event, t: Task): State {
    State(map["e" := e], map[], 0, map[0 := t])
  }

  lemma OneJobLoads()
    ensures Reachable(OneJob(Event("x", Received, 0, Unreported), Loaded("e", 0)), 5)
  {
    var e := Event("x", Received, 0, Unreported);
    var s1 := State(map["e" := e], map[], 0, map[]);
    assert Run(INITIAL, 5, []) == INITIAL;
    StepReaches(INITIAL, 5, Deliver("e", "x"), s1);
    StepReaches(s1, 5, StartJob(0, "e"), OneJob(e, Queued("e")));
    StepReaches(OneJob(e, Queued("e")), 5, Advance(0, Succeed), OneJob(e, Loaded("e", 0)));
  }

  lemma OneJobImports()
    ensures Reachable(OneJob(Event("x", Processing, 1, Unreported), Importing("e", 1)), 5)
  {
    var e := Event("x", Received, 0, Unreported);
    var e1 := e.(status := Processing);
    OneJobLoads();
    StepReaches(OneJob(e, Loaded("e", 0)), 5, Advance(0, Succeed), OneJob(e1, Claiming("e", 0)));
    StepReaches(OneJob(e1, Claiming("e", 0)), 5, Advance(0, Succeed), OneJob(e1.(attempts := 1), Importing("e", 1)));
  }

  lemma OneJobProcesses()
    ensures Reachable(OneJob(Event("x", Processed, 1, HeldBack), Recording("e", 1)), 5)
  {
    var e := Event("x", Processing, 1, Unreported);
    OneJobImports();
    StepReaches(OneJob(e, Importing("e", 1)), 5, Advance(0, Hold), OneJob(e, Finishing("e", 1, HeldBack)));
    StepReaches(OneJob(e, Finishing("e", 1, HeldBack)), 5, Advance(0, Succeed),
                OneJob(Event("x", Processed, 1, HeldBack), Recording("e", 1)));
  }

  lemma TwoSteps(s: State, max: nat, a: Step, b: Step)
    ensures Run(s, max, [a, b]) == Next(Next(s, max, a), max, b)
  {
    assert [a, b][1..] == [b] && [b][1..] == [];
    assert Run(Next(s, max, a), max, [b]) == Run(Next(Next(s, max, a), max, b), max, []);
  }

  lemma OneJobFails()
    ensures var s := Run(OneJob(Event("x", Processed, 1, HeldBack), Recording("e", 1)), 5,
                         [Advance(0, Fail), Advance(0, Fail)]);
            "e" in s.events && s.events["e"].status == Retrying
  {
    var e := Event("x", Processed, 1, HeldBack);
    TwoSteps(OneJob(e, Recording("e", 1)), 5, Advance(0, Fail), Advance(0, Fail));
    assert Next(OneJob(e, Recording("e", 1)), 5, Advance(0, Fail)) == OneJob(e, Failing("e", 1));
  }

  /**
   * A single job suffices: once it has written Processed, recording the time or the result can still
   * fail, and the same job then puts the event back to retrying.
   */
  lemma OneJobCanUndoProcessed()
    ensures exists s: State, steps: seq<Step> ::
              && Reachable(s, 5) && IsProcessed(s, "e") && s.tasks.Keys == {0}
              && "e" in Run(s, 5, steps).events && Run(s, 5, steps).events["e"].status == Retrying
  {
    OneJobProcesses();
    OneJobFails();
    var s, steps := OneJob(Event("x", Processed, 1, HeldBack), Recording("e", 1)), [Advance(0, Fail), Advance(0, Fail)];
    assert Reachable(s, 5) && IsProcessed(s, "e") && s.tasks.Keys == {0};
    assert Run(s, 5, steps).events["e"].status == Retrying;
  }

  // ---------------------------------------------------------------- what the attempts count

  /** The step writes the attempts of the event: a worker claims it. */
  predicate Claims(s: State, step: Step, id: string) {
    && step.Advance? && step.task in s.tasks && s.tasks[step.task].Claiming?
    && s.tasks[step.task].event == id && id in s.events
  }

  function ClaimsIn(s: State, max: nat, steps: seq<Step>, id: string): nat
    decreases |steps|
  {
    if steps == [] then 0
    else (if Claims(s, steps[0], id) then 1 else 0) + ClaimsIn(Next(s, max, steps[0]), max, steps[1..], id)
  }

  /** Every worker that claims the event does so with a copy of the attempts that is still current. */
  predicate ClaimsAreCurrent(s: State, max: nat, steps: seq<Step>, id: string)
    decreases |steps|
  {
    steps != [] ==>
      && (Claims(s, steps[0], id) ==> s.tasks[steps[0].task].attempts == s.events[id].attempts)
      && ClaimsAreCurrent(Next(s, max, steps[0]), max, steps[1..], id)
  }

  function AttemptsOf(s: State, id: string): nat {
    if id in s.events then s.events[id].attempts else 0
  }

  /** The task has a copy of the event's attempts that it may yet write. */
  predicate HoldsCopy(t: Task, id: string) {
    (t.Loaded? || t.Claiming?) && t.event == id
  }

  /** After `claims` claims neither the attempts nor any copy of them is larger. */
  ghost predicate Level(s: State, id: string, claims: nat) {
    && AttemptsOf(s, id) <= claims
    && forall n | n in s.tasks && HoldsCopy(s.tasks[n], id) :: id in s.events && s.tasks[n].attempts <= claims
  }

  /** A claim has been lost: the attempts and every copy of them are smaller. */
  ghost predicate Behind(s: State, id: string, claims: nat) {
    && AttemptsOf(s, id) < claims
    && forall n | n in s.tasks && HoldsCopy(s.tasks[n], id) :: id in s.events && s.tasks[n].attempts < claims
  }

  /** What a step leaves of the attempts and of the copies. */
  lemma StepCopies(s: State, max: nat, step: Step, id: string, bound: nat)
    requires Level(s, id, bound)
    ensures var s' := Next(s, max, step);
            && (forall n | n in s'.tasks && HoldsCopy(s'.tasks[n], id) ::
                  id in s'.events && s'.tasks[n].attempts <= bound)
            && AttemptsOf(s', id) == if Claims(s, step, id) then s.tasks[step.task].attempts + 1 else AttemptsOf(s, id)
  {
  }

  lemma {:induction false} StaysBehind(s: State, max: nat, steps: seq<Step>, id: string, claims: nat)
    requires Behind(s, id, claims)
    ensures AttemptsOf(Run(s, max, steps), id) < claims + ClaimsIn(s, max, steps, id)
    decreases |steps|
  {
    if steps != [] {
      StepCopies(s, max, steps[0], id, claims - 1);
      StaysBehind(Next(s, max, steps[0]), max, steps[1..], id, claims + if Claims(s, steps[0], id) then 1 else 0);
    }
  }

  lemma {:induction false} AttemptsFollowClaims(s: State, max: nat, steps: seq<Step>, id: string)
    requires Level(s, id, AttemptsOf(s, id))
    ensures var attempts, claims := AttemptsOf(Run(s, max, steps), id), AttemptsOf(s, id) + ClaimsIn(s, max, steps, id);
            attempts <= claims && (attempts == claims <==> ClaimsAreCurrent(s, max, steps, id))
    decreases |steps|
  {
    if steps != [] {
      var s', attempts := Next(s, max, steps[0]), AttemptsOf(s, id);
      StepCopies(s, max, steps[0], id, attempts);
      if Claims(s, steps[0], id) && s.tasks[steps[0].task].attempts != attempts {
        assert Behind(s', id, attempts + 1);
        StaysBehind(s', max, steps[1..], id, attempts + 1);
      } else {
        AttemptsFollowClaims(s', max, steps[1..], id);
      }
    }
  }

  /**
   * Over every interleaving the attempts never exceed the claims, and they count them exactly if and
   * only if no worker claims the event with a copy that another claim has overtaken.
   */
  lemma AttemptsCountClaimsExactlyWhen(max: nat, steps: seq<Step>, id: string)
    ensures var attempts, claims := AttemptsOf(Run(INITIAL, max, steps), id), ClaimsIn(INITIAL, max, steps, id);
            attempts <= claims && (attempts == claims <==> ClaimsAreCurrent(INITIAL, max, steps, id))
  {
    AttemptsFollowClaims(INITIAL, max, steps, id);
  }

  lemma TwoJobsWait()
    ensures Reachable(TwoJobs(Event("x", Received, 0, Unreported), Queued("e"), Queued("e")), 1)
  {
    var e := Event("x", Received, 0, Unreported);
    var s1 := State(map["e" := e], map[], 0, map[]);
    var s2 := s1.(tasks := map[0 := Queued("e")]);
    assert Run(INITIAL, 1, []) == INITIAL;
    StepReaches(INITIAL, 1, Deliver("e", "x"), s1);
    StepReaches(s1, 1, StartJob(0, "e"), s2);
    StepReaches(s2, 1, StartJob(1, "e"), TwoJobs(e, Queued("e"), Queued("e")));
  }

  lemma StepCounts(s: State, max: nat, step: Step, s': State, steps: seq<Step>)
    requires Next(s, max, step) == s'
    ensures Run(s, max, [step] + steps) == Run(s', max, steps)
    ensures ClaimsIn(s, max, [step] + steps, "e")
            == (if Claims(s, step, "e") then 1 else 0) + ClaimsIn(s', max, steps, "e")
  {
    assert ([step] + steps)[1..] == steps;
  }

  lemma TwoJobsClaim(s: State)
    requires s == TwoJobs(Event("x", Processing, 0, Unreported), Claiming("e", 0), Claiming("e", 0))
    ensures ClaimsIn(s, 1, [Advance(0, Succeed), Advance(1, Succeed)], "e") == 2
    ensures AttemptsOf(Run(s, 1, [Advance(0, Succeed), Advance(1, Succeed)]), "e") == 1
  {
    var a, b := Advance(0, Succeed), Advance(1, Succeed);
    var e := Event("x", Processing, 1, Unreported);
    var s1, s2 := TwoJobs(e, Importing("e", 1), Claiming("e", 0)), TwoJobs(e, Importing("e", 1), Importing("e", 1));
    assert [a, b] == [a] + [b] && [b] == [b] + [];
    StepCounts(s, 1, a, s1, [b]);
    StepCounts(s1, 1, b, s2, []);
  }

  lemma TwoJobsLoad(s: State, rest: seq<Step>) returns (steps: seq<Step>)
    requires s == TwoJobs(Event("x", Received, 0, Unreported), Queued("e"), Queued("e"))
    ensures var claiming := TwoJobs(Event("x", Processing, 0, Unreported), Claiming("e", 0), Claiming("e", 0));
            && Run(s, 1, steps) == Run(claiming, 1, rest)
            && ClaimsIn(s, 1, steps, "e") == ClaimsIn(claiming, 1, rest, "e")
  {
    var a, b := Advance(0, Succeed), Advance(1, Succeed);
    var e := Event("x", Received, 0, Unreported);
    var e1 := e.(status := Processing);
    var s1, s2 := TwoJobs(e, Loaded("e", 0), Queued("e")), TwoJobs(e, Loaded("e", 0), Loaded("e", 0));
    var s3, s4 := TwoJobs(e1, Claiming("e", 0), Loaded("e", 0)), TwoJobs(e1, Claiming("e", 0), Claiming("e", 0));
    StepCounts(s3, 1, b, s4, rest);
    StepCounts(s2, 1, a, s3, [b] + rest);
    StepCounts(s1, 1, b, s2, [a] + ([b] + rest));
    StepCounts(s, 1, a, s1, [b] + ([a] + ([b] + rest)));
    steps := [a] + ([b] + ([a] + ([b] + rest)));
  }

  /**
   * Two jobs, both started while the event was due, that read it before either claims it: they claim it
   * twice where the maximum is one, and the attempts say one.
   */
  lemma OverlappingClaimsExceedTheMaximum()
    ensures var s := TwoJobs(Event("x", Received, 0, Unreported), Queued("e"), Queued("e"));
            && Reachable(s, 1)
            && exists steps: seq<Step> ::
                 ClaimsIn(s, 1, steps, "e") == 2 && AttemptsOf(Run(s, 1, steps), "e") == 1
  {
    var s := TwoJobs(Event("x", Received, 0, Unreported), Queued("e"), Queued("e"));
    var claiming := TwoJobs(Event("x", Processing, 0, Unreported), Claiming("e", 0), Claiming("e", 0));
    TwoJobsWait();
    TwoJobsClaim(claiming);
    var steps := TwoJobsLoad(s, [Advance(0, Succeed), Advance(1, Succeed)]);
    assert ClaimsIn(s, 1, steps, "e") == 2;
  }

  // ---------------------------------------------------------------- a run is held back only when it is

  /** The step imports the event's expense, and its handler holds it back. */
  predicate HoldsBack(s: State, step: Step, id: string) {
    && step.Advance? && step.choice == Hold && step.task in s.tasks
    && s.tasks[step.task].Importing? && s.tasks[step.task].event == id
  }

  predicate SomeHoldsBack(s: State, max: nat, steps: seq<Step>, id: string)
    decreases |steps|
  {
    steps != [] && (HoldsBack(s, steps[0], id) || SomeHoldsBack(Next(s, max, steps[0]), max, steps[1..], id))
  }

  /** Neither the event nor any task on it reports it held back. */
  ghost predicate NoneHeldBack(s: State, id: string) {
    && (id in s.events ==> s.events[id].report != HeldBack)
    && forall n | n in s.tasks && s.tasks[n].event == id && s.tasks[n].Finishing? :: s.tasks[n].report != HeldBack
  }

  lemma StepHoldsNone(s: State, max: nat, step: Step, id: string)
    requires NoneHeldBack(s, id) && !HoldsBack(s, step, id)
    requires id in s.events ==> s.events[id].expenseId != ""
    ensures NoneHeldBack(Next(s, max, step), id)
  {
  }

  lemma {:induction false} HeldBackWasChosen(s: State, max: nat, steps: seq<Step>, id: string)
    requires NoneHeldBack(s, id) && !SomeHoldsBack(s, max, steps, id)
    requires id in Run(s, max, steps).events ==> Run(s, max, steps).events[id].expenseId != ""
    requires Sound(s)
    ensures NoneHeldBack(Run(s, max, steps), id)
    decreases |steps|
  {
    if steps != [] {
      var s' := Next(s, max, steps[0]);
      StepIsSound(s, max, steps[0]);
      StepGrows(s, max, steps[0]);
      EveryRunIsSound(s', max, steps[1..]);
      StepHoldsNone(s, max, steps[0], id);
      HeldBackWasChosen(s', max, steps[1..], id);
    }
  }

  /**
   * Over every run, an event is reported as held back only if it carries no expense id or its handler held
   * it back in some step; any other processed event is booked, exactly once.
   */
  lemma ProcessedIsBookedUnlessHeld(max: nat, steps: seq<Step>, id: string)
    ensures var s := Run(INITIAL, max, steps);
            id in s.events && s.events[id].expenseId != "" && !SomeHoldsBack(INITIAL, max, steps, id) ==>
              && s.events[id].report != HeldBack
              && (s.events[id].status == Processed ==>
                    s.events[id].report == Booked && s.events[id].expenseId in Expenses(s))
  {
    var s := Run(INITIAL, max, steps);
    EveryRunIsSound(INITIAL, max, steps);
    if id in s.events && s.events[id].expenseId != "" && !SomeHoldsBack(INITIAL, max, steps, id) {
      HeldBackWasChosen(INITIAL, max, steps, id);
    }
  }

  // ---------------------------------------------------------------- what a job comes to when nothing intervenes

  /** Where a job that succeeds stands on its way, and what has come of its event. */
  predicate OnCourse(s: State, n: nat, id: string, before: nat) {
    && n in s.tasks && s.tasks[n].event == id && id in s.events && s.events[id].expenseId != ""
    && var e := s.events[id];
       match s.tasks[n]
       case Queued(_) => e.status !in {Processed, Ignored} && e.attempts == before
       case Loaded(_, attempts) => attempts == before
       case Claiming(_, attempts) => attempts == before
       case Importing(_, _) => e.attempts == before + 1
       case Inserting(_, _) => e.attempts == before + 1 && !HasTransaction(s, e.expenseId)
       case Continuing(_, _) => e.attempts == before + 1 && HasTransaction(s, e.expenseId)
       case Finishing(_, _, report) => e.attempts == before + 1 && HasTransaction(s, e.expenseId) && report == Booked
       case Recording(_, _) => Arrived(s, id, before)
       case _ => false
  }

  /** The event is processed and its expense booked, by one attempt more. */
  predicate Arrived(s: State, id: string, before: nat) {
    && id in s.events && s.events[id].expenseId != "" && HasTransaction(s, s.events[id].expenseId)
    && s.events[id].status == Processed && s.events[id].report == Booked && s.events[id].attempts == before + 1
  }

  function StepsToGo(t: Task): nat {
    match t
    case Queued(_) => 8
    case Loaded(_, _) => 7
    case Claiming(_, _) => 6
    case Importing(_, _) => 5
    case Inserting(_, _) => 4
    case Continuing(_, _) => 3
    case Finishing(_, _, _) => 2
    case _ => 1
  }

  lemma SucceedingStep(s: State, max: nat, n: nat, id: string, before: nat)
    requires OnCourse(s, n, id, before) && forall k | k in s.transactions :: k < s.nextTransaction
    ensures var s' := Next(s, max, Advance(n, Succeed));
            && (forall k | k in s'.transactions :: k < s'.nextTransaction)
            && ((Arrived(s', id, before) && n !in s'.tasks)
                || (OnCourse(s', n, id, before) && StepsToGo(s'.tasks[n]) < StepsToGo(s.tasks[n])))
  {
    var s' := Next(s, max, Advance(n, Succeed));
    if s.tasks[n].Inserting? {
      assert s'.transactions[s.nextTransaction] == s.events[id].expenseId;
    }
  }

  lemma {:induction false} SucceedingJobArrives(s: State, max: nat, n: nat, id: string, before: nat)
    returns (steps: seq<Step>)
    requires OnCourse(s, n, id, before) && forall k | k in s.transactions :: k < s.nextTransaction
    ensures forall step | step in steps :: step == Advance(n, Succeed)
    ensures Arrived(Run(s, max, steps), id, before) && n !in Run(s, max, steps).tasks
    decreases StepsToGo(s.tasks[n])
  {
    var step := Advance(n, Succeed);
    var s' := Next(s, max, step);
    SucceedingStep(s, max, n, id, before);
    if n in s'.tasks {
      steps := SucceedingJobArrives(s', max, n, id, before);
    } else {
      steps := [];
    }
    assert ([step] + steps)[1..] == steps;
    steps := [step] + steps;
  }

  /** A queued job on an open event with an expense, left alone and succeeding, books it and processes the event. */
  lemma QueuedJobBooks(s: State, max: nat, n: nat, id: string) returns (steps: seq<Step>)
    requires Sound(s) && n in s.tasks && s.tasks[n] == Queued(id) && id in s.events
    requires s.events[id].status !in {Processed, Ignored} && s.events[id].expenseId != ""
    ensures forall step | step in steps :: step == Advance(n, Succeed)
    ensures var s' := Run(s, max, steps);
            && n !in s'.tasks && id in s'.events && s'.events[id].status == Processed && s'.events[id].report == Booked
            && s'.events[id].attempts == s.events[id].attempts + 1 && s.events[id].expenseId in Expenses(s')
  {
    steps := SucceedingJobArrives(s, max, n, id, s.events[id].attempts);
    EveryRunIsSound(s, max, steps);
  }

  /** The job has claimed its event and is about to run its handler. */
  lemma QueuedJobClaims(s: State, max: nat, n: nat, id: string)
    requires n in s.tasks && s.tasks[n] == Queued(id) && id in s.events && s.events[id].status !in {Processed, Ignored}
    ensures var go := Advance(n, Succeed);
            var e := s.events[id].(status := Processing, attempts := s.events[id].attempts + 1);
            Run(s, max, [go, go, go]) == Go(SetEvent(s, id, e), n, Importing(id, e.attempts))
  {
    var go := Advance(n, Succeed);
    var s1 := Next(s, max, go);
    assert s1 == Go(s, n, Loaded(id, s.events[id].attempts));
    assert [go, go, go][1..] == [go, go];
    TwoSteps(s1, max, go, go);
  }

  /** A handler that fails leaves the event to retry while an attempt is left, and in dead letter after the last. */
  lemma FailingJobEnds(s: State, max: nat, n: nat, id: string, attempts: nat, any: Choice)
    requires n in s.tasks && s.tasks[n] == Importing(id, attempts) && id in s.events
    ensures Run(s, max, [Advance(n, Fail), Advance(n, any)])
            == Done(SetEvent(s, id, s.events[id].(status := if attempts < max then Retrying else DeadLetter)), n)
  {
    TwoSteps(s, max, Advance(n, Fail), Advance(n, any));
  }

  /** A handler that does not take the event leaves it ignored, one that holds it leaves it processed and unbooked. */
  lemma UnbookedJobEnds(s: State, max: nat, n: nat, id: string, attempts: nat)
    requires n in s.tasks && s.tasks[n] == Importing(id, attempts) && id in s.events
    ensures var s' := Run(s, max, [Advance(n, Skip), Advance(n, Succeed)]);
            && s'.transactions == s.transactions
            && s'.events == s.events[id := s.events[id].(status := Ignored, report := NotHandled)]
    ensures var s' := Run(s, max, [Advance(n, Hold), Advance(n, Succeed)]);
            && s'.transactions == s.transactions
            && s'.events == s.events[id := s.events[id].(status := Processed, report := HeldBack)]
  {
    TwoSteps(s, max, Advance(n, Skip), Advance(n, Succeed));
    TwoSteps(s, max, Advance(n, Hold), Advance(n, Succeed));
  }

  /** The reaper gives back an event in processing, or ends it when its attempts are used up. */
  lemma ReaperEnds(s: State, max: nat, n: nat, id: string, a: Choice, b: Choice)
    requires n in s.tasks && s.tasks[n] == ReaperListed(id) && id in s.events
    ensures Run(s, max, [Advance(n, a), Advance(n, b)])
            == var e := s.events[id];
               Done(SetEvent(s, id, e.(status := if e.attempts < max then Retrying else DeadLetter)), n)
  {
    TwoSteps(s, max, Advance(n, a), Advance(n, b));
  }

  /**
   * What starts: a stored event is received, a job is queued whatever the status, a reaper lists
   * what is in processing.
   */
  lemma StartsMean(s: State, max: nat, n: nat, id: string, expenseId: string)
    ensures id !in s.events ==>
              Next(s, max, Deliver(id, expenseId))
              == s.(events := s.events[id := Event(expenseId, Received, 0, Unreported)])
    ensures id in s.events ==> Next(s, max, Deliver(id, expenseId)) == s
    ensures id in s.events && n !in s.tasks ==> Next(s, max, StartJob(n, id)) == s.(tasks := s.tasks[n := Queued(id)])
    ensures id in s.events && n !in s.tasks && s.events[id].status == Processing ==>
              Next(s, max, StartReaper(n, id)) == s.(tasks := s.tasks[n := ReaperListed(id)])
    ensures Next(s, max, Vanish(n)) == s.(tasks := s.tasks - {n})
    ensures forall choice | n in s.tasks && s.tasks[n] == Queued(id) && id in s.events
            && s.events[id].status in {Processed, Ignored} ::
              Next(s, max, Advance(n, choice)) == s.(tasks := s.tasks - {n})
  {
  }
}
