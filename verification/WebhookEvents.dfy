/** The states of a stored webhook event. */
module WebhookStatus {
  datatype Status = Received | Processing | Processed | Ignored | Retrying | DeadLetter
}

/**
 * The life of a stored webhook event when calls do not overlap: claiming, finishing, failing, dying,
 * and the reaper. The class EventStore makes the writes field by field; the functions say what each
 * call amounts to, and the lemmas bound the attempts.
 */
module WebhookEvents {
  import opened Options
  import opened WebhookStatus

  datatype LastError = NoError | HandlerError | StaleRetry | StaleDeadLetter

  datatype Event = Event(
    settings: string, eventName: string, status: Status, attempts: nat, modified: int, duplicate: bool,
    lastError: LastError)

  /** The retry settings of one connection; zero stands for an unset field. */
  datatype Config = Config(enabled: bool, maxAttempts: nat, timeoutMinutes: nat)
  {
    function Max(): nat {
      if maxAttempts != 0 then maxAttempts else 5
    }

    function Timeout(asked: nat): nat {
      if asked != 0 then asked else if timeoutMinutes != 0 then timeoutMinutes else 15
    }
  }

  /** How a claimed run ends: the handler returns a status, raises, or the worker is gone before either. */
  datatype Ending = Returns(status: string) | Raises | Dies

  predicate StartsWith(s: string, prefix: string) {
    |prefix| <= |s| && s[..|prefix|] == prefix
  }

  predicate Supported(eventName: string) {
    || StartsWith(eventName, "spend.expense.")
    || StartsWith(eventName, "spend.bill.")
    || StartsWith(eventName, "spend.reimbursement_report.")
  }

  /** An event whose name no handler takes is ignored without calling one. */
  function EndingOf(e: Event, ending: Ending): Ending {
    if !Supported(e.eventName) && ending != Dies then Returns("ignored") else ending
  }

  // ---------------------------------------------------------------- what each call amounts to

  function Claimed(e: Event, now: int): Event {
    e.(status := Processing, attempts := e.attempts + 1, modified := now)
  }

  function Ended(e: Event, max: nat, ending: Ending): Event {
    match ending
    case Returns(status) => e.(status := if status == "ignored" then Ignored else Processed)
    case Raises => e.(status := if e.attempts < max then Retrying else DeadLetter, lastError := HandlerError)
    case Dies => e
  }

  function Handled(e: Event, max: nat, now: int, ending: Ending): Event {
    if e.status in {Processed, Ignored} then e else Ended(Claimed(e, now), max, EndingOf(e, ending))
  }

  /** A reaper asked for one connection takes that one, enabled or not; one that is not takes all enabled ones. */
  predicate Covers(only: Option<string>, name: string, configs: map<string, Config>) {
    name in configs && match only case None => configs[name].enabled case Some(asked) => asked == name
  }

  predicate Stale(e: Event, configs: map<string, Config>, only: Option<string>, asked: nat, now: int) {
    && Covers(only, e.settings, configs)
    && e.status == Processing
    && e.modified < now - configs[e.settings].Timeout(asked)
  }

  function Reaped(e: Event, max: nat, now: int): Event {
    if e.attempts >= max then e.(status := DeadLetter, lastError := StaleDeadLetter, modified := now)
    else e.(status := Retrying, lastError := StaleRetry, modified := now)
  }

  /** Every event after the reaper has gone over the connections it covers. */
  function Recovered(events: map<string, Event>, configs: map<string, Config>, only: Option<string>, asked: nat,
                     now: int): map<string, Event>
  {
    map id | id in events ::
      if Stale(events[id], configs, only, asked, now) then Reaped(events[id], configs[events[id].settings].Max(), now)
      else events[id]
  }

  function MaxFor(e: Event, configs: map<string, Config>): nat {
    if e.settings in configs then configs[e.settings].Max() else 1
  }

  /** The event is stale, and its connection is not among those still to be gone over. */
  predicate InReach(events: map<string, Event>, configs: map<string, Config>, only: Option<string>, asked: nat,
                    now: int, left: set<string>, id: string)
  {
    id in events && Stale(events[id], configs, only, asked, now) && events[id].settings !in left
  }

  /** Every event while the reaper still has some connections to go over. */
  function RecoveredBut(events: map<string, Event>, configs: map<string, Config>, only: Option<string>, asked: nat,
                        now: int, left: set<string>): map<string, Event>
  {
    map id | id in events ::
      if InReach(events, configs, only, asked, now, left, id) then Reaped(events[id], MaxFor(events[id], configs), now)
      else events[id]
  }

  lemma RecoverOneMore(events: map<string, Event>, configs: map<string, Config>, only: Option<string>, asked: nat,
                       now: int, left: set<string>, name: string)
    requires name in left && Covers(only, name, configs)
    ensures var between := RecoveredBut(events, configs, only, asked, now, left);
            && Recovered(between, configs, Some(name), asked, now)
               == RecoveredBut(events, configs, only, asked, now, left - {name})
            && forall id :: (id in between && Stale(between[id], configs, Some(name), asked, now))
                            <==> (id in events && Stale(events[id], configs, only, asked, now)
                                  && events[id].settings == name && between[id] == events[id])
  {
  }

  /** The given events reaped, the others as they are. */
  function ReapedIn(events: map<string, Event>, ids: set<string>, max: nat, now: int): map<string, Event> {
    map id | id in events :: if id in ids then Reaped(events[id], max, now) else events[id]
  }

  lemma ReapOneMore(events: map<string, Event>, stale: set<string>, left: set<string>, id: string, max: nat, now: int)
    requires left <= stale <= events.Keys && id in left
    ensures var before := ReapedIn(events, stale - left, max, now);
            && id in before && before[id] == events[id]
            && before[id := Reaped(events[id], max, now)] == ReapedIn(events, stale - (left - {id}), max, now)
  {
  }

  lemma StaleOfOne(events: map<string, Event>, configs: map<string, Config>, name: string, asked: nat, now: int,
                   stale: set<string>)
    requires name in configs
    requires forall id :: id in stale <==>
               id in events && events[id].settings == name && events[id].status == Processing
               && events[id].modified < now - configs[name].Timeout(asked)
    ensures forall id | id in events :: id in stale <==> Stale(events[id], configs, Some(name), asked, now)
    ensures ReapedIn(events, stale, configs[name].Max(), now) == Recovered(events, configs, Some(name), asked, now)
  {
  }

  /** The store after a delivery: a new event is received, a known one is only flagged. */
  function Delivered(events: map<string, Event>, id: string, settings: string, eventName: string, now: int)
    : map<string, Event>
  {
    if id in events then events[id := events[id].(duplicate := true)]
    else events[id := Event(settings, eventName, Received, 0, now, false, NoError)]
  }

  predicate Due(e: Event) {
    e.status in {Received, Retrying}
  }

  // ---------------------------------------------------------------- the store

  class EventStore {
    var events: map<string, Event>
    const configs: map<string, Config>

    constructor (configs: map<string, Config>)
      ensures events == map[] && this.configs == configs
    {
      this.events, this.configs := map[], configs;
    }

    /** A first delivery is stored as received; a repeated one only raises the duplicate flag. */
    method StoreEvent(id: string, settings: string, eventName: string, now: int) returns (duplicate: bool)
      modifies this
      ensures duplicate == (id in old(events))
      ensures events == Delivered(old(events), id, settings, eventName, now)
    {
      duplicate := id in events;
      if duplicate {
        events := events[id := events[id].(duplicate := true)];
      } else {
        events := events[id := Event(settings, eventName, Received, 0, now, false, NoError)];
      }
    }

    method SetStatus(id: string, status: Status)
      requires id in events
      modifies this
      ensures events == old(events)[id := old(events)[id].(status := status)]
    {
      events := events[id := events[id].(status := status)];
    }

    /** The two claim writes: the status, then the attempts, each refreshing the modification time. */
    method Claim(id: string, now: int)
      requires id in events
      modifies this
      ensures events == old(events)[id := Claimed(old(events)[id], now)]
    {
      events := events[id := events[id].(status := Processing, modified := now)];
      events := events[id := events[id].(attempts := events[id].attempts + 1, modified := now)];
    }

    method Finish(id: string, max: nat, ending: Ending)
      requires id in events
      modifies this
      ensures events == old(events)[id := Ended(old(events)[id], max, ending)]
    {
      match ending {
        case Dies =>
        case Returns(status) =>
          SetStatus(id, if status == "ignored" then Ignored else Processed);
        case Raises =>
          var retry := events[id].attempts < max;
          SetStatus(id, if retry then Retrying else DeadLetter);
          events := events[id := events[id].(lastError := HandlerError)];
      }
    }

    method ProcessEvent(id: string, now: int, ending: Ending)
      requires id in events && events[id].settings in configs
      modifies this
      ensures var e := old(events)[id];
              events == old(events)[id := Handled(e, configs[e.settings].Max(), now, ending)]
    {
      var event := events[id];
      if event.status in {Processed, Ignored} {
        return;
      }
      Claim(id, now);
      Finish(id, configs[event.settings].Max(), EndingOf(event, ending));
    }

    method Reap(id: string, max: nat, now: int) returns (requeued: bool)
      requires id in events
      modifies this
      ensures events == old(events)[id := Reaped(old(events)[id], max, now)]
      ensures requeued == (old(events)[id].attempts < max)
    {
      requeued := events[id].attempts < max;
      if requeued {
        events := events[id := events[id].(status := Retrying, lastError := StaleRetry, modified := now)];
      } else {
        events := events[id := events[id].(status := DeadLetter, lastError := StaleDeadLetter, modified := now)];
      }
    }

    /**
     * Goes over the enabled connections, or the one asked for, and over each one's stale events, in no
     * particular order.
     */
    method RecoverStaleEvents(only: Option<string>, asked: nat, now: int)
      returns (requeued: seq<string>, deadLettered: seq<string>)
      requires only.Some? ==> only.value in configs
      modifies this
      ensures events == Recovered(old(events), configs, only, asked, now)
      ensures forall id | id in old(events) ::
                id in requeued <==> Stale(old(events)[id], configs, only, asked, now) && events[id].status == Retrying
      ensures forall id | id in old(events) ::
                id in deadLettered <==>
                  Stale(old(events)[id], configs, only, asked, now) && events[id].status == DeadLetter
    {
      requeued, deadLettered := [], [];
      ghost var before := events;
      var names := if only.Some? then {only.value} else set name | name in configs && configs[name].enabled;
      while names != {}
        invariant forall name | name in names :: Covers(only, name, configs)
        invariant events == RecoveredBut(before, configs, only, asked, now, names)
        invariant forall id :: id in requeued <==>
                    InReach(before, configs, only, asked, now, names, id)
                    && before[id].attempts < MaxFor(before[id], configs)
        invariant forall id :: id in deadLettered <==>
                    InReach(before, configs, only, asked, now, names, id)
                    && before[id].attempts >= MaxFor(before[id], configs)
        decreases names
      {
        var name :| name in names;
        RecoverOneMore(before, configs, only, asked, now, names, name);
        var r, d := RecoverConnection(name, asked, now);
        names := names - {name};
        requeued, deadLettered := requeued + r, deadLettered + d;
      }
    }

    method RecoverConnection(name: string, asked: nat, now: int)
      returns (requeued: seq<string>, deadLettered: seq<string>)
      requires name in configs
      modifies this
      ensures events == Recovered(old(events), configs, Some(name), asked, now)
      ensures forall id :: id in requeued <==>
                id in old(events) && Stale(old(events)[id], configs, Some(name), asked, now)
                && old(events)[id].attempts < configs[name].Max()
      ensures forall id :: id in deadLettered <==>
                id in old(events) && Stale(old(events)[id], configs, Some(name), asked, now)
                && old(events)[id].attempts >= configs[name].Max()
    {
      var max, cutoff := configs[name].Max(), now - configs[name].Timeout(asked);
      var stale := set id | id in events && events[id].settings == name && events[id].status == Processing
                            && events[id].modified < cutoff;
      StaleOfOne(events, configs, name, asked, now, stale);
      requeued, deadLettered := ReapAll(stale, max, now);
    }

    method ReapAll(stale: set<string>, max: nat, now: int) returns (requeued: seq<string>, deadLettered: seq<string>)
      requires stale <= events.Keys
      modifies this
      ensures events == ReapedIn(old(events), stale, max, now)
      ensures forall id :: id in requeued <==> id in stale && old(events)[id].attempts < max
      ensures forall id :: id in deadLettered <==> id in stale && old(events)[id].attempts >= max
    {
      requeued, deadLettered := [], [];
      var left := stale;
      while left != {}
        invariant left <= stale && events == ReapedIn(old(events), stale - left, max, now)
        invariant forall id :: id in requeued <==> id in stale - left && old(events)[id].attempts < max
        invariant forall id :: id in deadLettered <==> id in stale - left && old(events)[id].attempts >= max
      {
        var id :| id in left;
        ReapOneMore(old(events), stale, left, id, max, now);
        left := left - {id};
        var retry := Reap(id, max, now);
        if retry {
          requeued := requeued + [id];
        } else {
          deadLettered := deadLettered + [id];
        }
      }
      assert stale - left == stale;
    }

    /** The scheduler: recover first, then queue a job for everything received or waiting to retry. */
    method ProcessWebhookQueue(now: int) returns (queued: set<string>)
      modifies this
      ensures events == Recovered(old(events), configs, None, 0, now)
      ensures queued == set id | id in events && Due(events[id])
    {
      var requeued, deadLettered := RecoverStaleEvents(None, 0, now);
      queued := set id | id in events && Due(events[id]);
    }
  }

  // ---------------------------------------------------------------- the attempt budget

  predicate Terminal(e: Event) {
    e.status in {Processed, Ignored, DeadLetter}
  }

  /** What an event's attempts are in each status, while jobs start only on due events. */
  predicate InBudget(e: Event, max: nat) {
    match e.status
    case Received => e.attempts == 0
    case Retrying => 1 <= e.attempts < max
    case DeadLetter => e.attempts == max
    case _ => 1 <= e.attempts <= max
  }

  /**
   * A job keeps the event's attempts within the maximum if and only if it finds the event finished
   * or with an attempt left. Started on a due event it always does; started on one in processing
   * or on a dead letter that has used its attempts it does not.
   */
  lemma JobKeepsBudgetExactlyWhen(e: Event, max: nat, now: int, ending: Ending)
    requires max > 0 && InBudget(e, max)
    ensures InBudget(Handled(e, max, now, ending), max) <==> e.status in {Processed, Ignored} || e.attempts < max
    ensures Due(e) ==> InBudget(Handled(e, max, now, ending), max)
  {
  }

  /** A second delivery queues a job whatever the status: on a dead letter it claims once more than allowed. */
  lemma DuplicateDeliveryRevivesADeadLetter(e: Event, max: nat, now: int)
    requires max > 0 && InBudget(e, max) && e.status == DeadLetter && Supported(e.eventName)
    ensures var e' := Handled(e, max, now, Returns("processed"));
            e'.status == Processed && e'.attempts == max + 1 && !InBudget(e', max)
  {
  }

  lemma ReaperKeepsBudget(e: Event, max: nat, now: int)
    requires max > 0 && InBudget(e, max) && e.status == Processing
    ensures InBudget(Reaped(e, max, now), max) && Reaped(e, max, now).attempts == e.attempts
  {
  }

  /** What is left of an event's life: two steps for each attempt not yet spent. */
  function Measure(e: Event, max: nat): nat
    requires InBudget(e, max)
  {
    match e.status
    case Received => 2 * max + 1
    case Retrying => 2 * (max - e.attempts) + 1
    case Processing => 2 * (max - e.attempts) + 2
    case _ => 0
  }

  // ---------------------------------------------------------------- every run of the store

  datatype Action =
    | Deliver(id: string, settings: string, eventName: string, now: int)
    | Job(id: string, now: int, ending: Ending)
    | Sweep(only: Option<string>, asked: nat, now: int)

  /** Deliveries, jobs and reaper runs; a job for an event that is not due does nothing here. */
  function Apply(events: map<string, Event>, configs: map<string, Config>, a: Action): map<string, Event> {
    match a
    case Deliver(id, settings, eventName, now) =>
      if settings in configs then Delivered(events, id, settings, eventName, now) else events
    case Job(id, now, ending) =>
      if id in events && events[id].settings in configs && Due(events[id])
      then events[id := Handled(events[id], configs[events[id].settings].Max(), now, ending)] else events
    case Sweep(only, asked, now) => Recovered(events, configs, only, asked, now)
  }

  /** One when the action claims the event, else zero. */
  function Claims(events: map<string, Event>, configs: map<string, Config>, a: Action, id: string): nat {
    if a.Job? && a.id == id && id in events && events[id].settings in configs && Due(events[id]) then 1 else 0
  }

  /** The action moves the event along: a job claims it, or a sweep finds it stale. */
  predicate Moves(events: map<string, Event>, configs: map<string, Config>, a: Action, id: string) {
    || Claims(events, configs, a, id) == 1
    || (a.Sweep? && id in events && Stale(events[id], configs, a.only, a.asked, a.now))
  }

  function Run(events: map<string, Event>, configs: map<string, Config>, actions: seq<Action>): map<string, Event>
    decreases |actions|
  {
    if actions == [] then events else Run(Apply(events, configs, actions[0]), configs, actions[1..])
  }

  function ClaimsIn(events: map<string, Event>, configs: map<string, Config>, actions: seq<Action>, id: string): nat
    decreases |actions|
  {
    if actions == [] then 0
    else
      Claims(events, configs, actions[0], id)
      + ClaimsIn(Apply(events, configs, actions[0]), configs, actions[1..], id)
  }

  ghost predicate AllInBudget(events: map<string, Event>, configs: map<string, Config>) {
    forall id | id in events :: events[id].settings in configs && InBudget(events[id], MaxFor(events[id], configs))
  }

  function AttemptsOf(events: map<string, Event>, id: string): nat {
    if id in events then events[id].attempts else 0
  }

  /** What one action does to one event: nothing, a duplicate flag, a claim, or a sweep of the reaper. */
  lemma EventKeepsBudget(events: map<string, Event>, configs: map<string, Config>, a: Action, id: string)
    requires AllInBudget(events, configs) && id in events
    ensures var events' := Apply(events, configs, a);
            && id in events' && events'[id].settings == events[id].settings
            && var max, e, e' := MaxFor(events[id], configs), events[id], events'[id];
            && InBudget(e', max)
            && e'.attempts == e.attempts + Claims(events, configs, a, id)
            && Measure(e', max) <= Measure(e, max) - (if Moves(events, configs, a, id) then 1 else 0)
            && (!Moves(events, configs, a, id) ==> e' == e.(duplicate := e'.duplicate))
  {
    var e, max := events[id], MaxFor(events[id], configs);
    match a {
      case Deliver(_, _, _, _) =>
      case Job(_, now, ending) => JobKeepsBudgetExactlyWhen(e, max, now, ending);
      case Sweep(only, asked, now) =>
        if Stale(e, configs, only, asked, now) {
          ReaperKeepsBudget(e, max, now);
        }
    }
  }

  lemma ActionKeepsBudget(events: map<string, Event>, configs: map<string, Config>, a: Action, id: string)
    requires AllInBudget(events, configs)
    ensures var events' := Apply(events, configs, a);
            && AllInBudget(events', configs)
            && AttemptsOf(events', id) == AttemptsOf(events, id) + Claims(events, configs, a, id)
  {
    var events' := Apply(events, configs, a);
    forall k | k in events'
      ensures events'[k].settings in configs && InBudget(events'[k], MaxFor(events'[k], configs))
    {
      if k in events {
        EventKeepsBudget(events, configs, a, k);
      }
    }
    if id in events {
      EventKeepsBudget(events, configs, a, id);
    }
  }

  /**
   * Retry budget: over every run of deliveries, jobs on due events, crashes and reaper sweeps, the
   * attempts field counts the claims exactly, no event is claimed more often than its maximum, and
   * finished events stay as they are.
   */
  lemma {:induction false} ClaimsStayWithinBudget(events: map<string, Event>, configs: map<string, Config>,
                                                  actions: seq<Action>, id: string)
    requires AllInBudget(events, configs)
    ensures var events' := Run(events, configs, actions);
            && AllInBudget(events', configs)
            && AttemptsOf(events', id) == AttemptsOf(events, id) + ClaimsIn(events, configs, actions, id)
            && (id in events' ==> AttemptsOf(events', id) <= MaxFor(events'[id], configs))
    decreases |actions|
  {
    if actions != [] {
      ActionKeepsBudget(events, configs, actions[0], id);
      ClaimsStayWithinBudget(Apply(events, configs, actions[0]), configs, actions[1..], id);
    }
  }

  lemma {:induction false} TerminalIsAbsorbing(events: map<string, Event>, configs: map<string, Config>,
                                               actions: seq<Action>, id: string)
    requires id in events && Terminal(events[id])
    ensures var events' := Run(events, configs, actions);
            id in events' && events'[id].(duplicate := events[id].duplicate) == events[id]
    decreases |actions|
  {
    if actions != [] {
      TerminalIsAbsorbing(Apply(events, configs, actions[0]), configs, actions[1..], id);
    }
  }

  // ---------------------------------------------------------------- termination despite crashes

  /** How often a run moves the event along. */
  function MovesIn(events: map<string, Event>, configs: map<string, Config>, actions: seq<Action>, id: string): nat
    decreases |actions|
  {
    if actions == [] then 0
    else
      (if Moves(events, configs, actions[0], id) then 1 else 0)
      + MovesIn(Apply(events, configs, actions[0]), configs, actions[1..], id)
  }

  function Left(events: map<string, Event>, configs: map<string, Config>, id: string): nat
    requires id in events && InBudget(events[id], MaxFor(events[id], configs))
  {
    Measure(events[id], MaxFor(events[id], configs))
  }

  /** Over every run an event moves at most as often as it has life left. */
  lemma {:induction false} MovesAreBounded(events: map<string, Event>, configs: map<string, Config>,
                                           actions: seq<Action>, id: string)
    requires AllInBudget(events, configs) && id in events
    ensures var events' := Run(events, configs, actions);
            && AllInBudget(events', configs) && id in events' && events'[id].settings == events[id].settings
            && Left(events', configs, id) <= Left(events, configs, id) - MovesIn(events, configs, actions, id)
    decreases |actions|
  {
    if actions != [] {
      ActionKeepsBudget(events, configs, actions[0], id);
      EventKeepsBudget(events, configs, actions[0], id);
      MovesAreBounded(Apply(events, configs, actions[0]), configs, actions[1..], id);
    }
  }

  predicate IsJobOf(a: Action, id: string) {
    a.Job? && a.id == id
  }

  /** The reaper covers the connection and comes later than the timeout after `last`. */
  predicate SweepsPast(a: Action, configs: map<string, Config>, name: string, last: int) {
    a.Sweep? && Covers(a.only, name, configs) && last < a.now - configs[name].Timeout(a.asked)
  }

  /** What an open event needs next: a sweep past its timeout if it is in processing, else a job. */
  ghost predicate Offers(actions: seq<Action>, e: Event, configs: map<string, Config>, id: string) {
    if e.status == Processing then exists a :: a in actions && SweepsPast(a, configs, e.settings, e.modified)
    else exists a :: a in actions && IsJobOf(a, id)
  }

  /** A run that offers an open event what it needs moves it, whatever else the run does. */
  lemma {:induction false} OffersMove(events: map<string, Event>, configs: map<string, Config>, actions: seq<Action>,
                                      id: string)
    requires AllInBudget(events, configs) && id in events && !Terminal(events[id])
    requires Offers(actions, events[id], configs, id)
    ensures MovesIn(events, configs, actions, id) > 0
    decreases |actions|
  {
    var a := actions[0];
    assert forall b :: b in actions <==> b == a || b in actions[1..];
    if !Moves(events, configs, a, id) {
      ActionKeepsBudget(events, configs, a, id);
      EventKeepsBudget(events, configs, a, id);
      OffersMove(Apply(events, configs, a), configs, actions[1..], id);
    }
  }

  /** An event in processing was last claimed no later than the latest job for it. */
  lemma {:induction false} ClaimsAreTimed(events: map<string, Event>, configs: map<string, Config>,
                                          actions: seq<Action>,
                                          id: string, until: int)
    requires AllInBudget(events, configs) && id in events
    requires events[id].status == Processing ==> events[id].modified <= until
    requires forall a | a in actions && IsJobOf(a, id) :: a.now <= until
    ensures var events' := Run(events, configs, actions);
            id in events' && (events'[id].status == Processing ==> events'[id].modified <= until)
    decreases |actions|
  {
    if actions != [] {
      var a := actions[0];
      assert a in actions && forall b | b in actions[1..] :: b in actions;
      ActionKeepsBudget(events, configs, a, id);
      EventKeepsBudget(events, configs, a, id);
      ClaimsAreTimed(Apply(events, configs, a), configs, actions[1..], id, until);
    }
  }

  /** A stretch of a run, and a time that none of the event's jobs in it is later than. */
  datatype Round = Round(actions: seq<Action>, until: int)
  {
    /** Whatever else happens, there is a job for the event, and a sweep past the timeout of every earlier claim. */
    ghost predicate Serves(configs: map<string, Config>, name: string, id: string, last: int) {
      && last <= until
      && (forall a | a in actions && IsJobOf(a, id) :: a.now <= until)
      && (exists a :: a in actions && IsJobOf(a, id))
      && (exists a :: a in actions && SweepsPast(a, configs, name, last))
    }
  }

  ghost predicate AllServe(configs: map<string, Config>, name: string, rounds: seq<Round>, id: string, last: int)
    decreases |rounds|
  {
    rounds == []
    || (rounds[0].Serves(configs, name, id, last) && AllServe(configs, name, rounds[1..], id, rounds[0].until))
  }

  function RunRounds(events: map<string, Event>, configs: map<string, Config>, rounds: seq<Round>): map<string, Event>
    decreases |rounds|
  {
    if rounds == [] then events else RunRounds(Run(events, configs, rounds[0].actions), configs, rounds[1..])
  }

  lemma RoundMoves(events: map<string, Event>, configs: map<string, Config>, round: Round, id: string, last: int)
    requires AllInBudget(events, configs) && id in events
    requires events[id].status == Processing ==> events[id].modified <= last
    requires round.Serves(configs, events[id].settings, id, last)
    ensures var events' := Run(events, configs, round.actions);
            && AllInBudget(events', configs) && id in events' && events'[id].settings == events[id].settings
            && (events'[id].status == Processing ==> events'[id].modified <= round.until)
            && (Terminal(events[id]) || Left(events', configs, id) < Left(events, configs, id))
            && Left(events', configs, id) <= Left(events, configs, id)
  {
    var name := events[id].settings;
    MovesAreBounded(events, configs, round.actions, id);
    ClaimsAreTimed(events, configs, round.actions, id, round.until);
    if !Terminal(events[id]) {
      var a :| a in round.actions && SweepsPast(a, configs, name, last);
      assert events[id].status == Processing ==> SweepsPast(a, configs, name, events[id].modified);
      OffersMove(events, configs, round.actions, id);
    }
  }

  /**
   * On a connection that the reaper covers, because it is enabled or asked for, every event is finished
   * within its attempts: however the handlers end, even if every worker dies, and whatever else goes
   * on, as many rounds are enough as the event has life left.
   */
  lemma {:induction false} EveryEventIsFinished(events: map<string, Event>, configs: map<string, Config>,
                                                rounds: seq<Round>, id: string, last: int)
    requires AllInBudget(events, configs) && id in events
    requires events[id].status == Processing ==> events[id].modified <= last
    requires AllServe(configs, events[id].settings, rounds, id, last) && |rounds| >= Left(events, configs, id)
    ensures var events' := RunRounds(events, configs, rounds);
            && id in events' && Terminal(events'[id])
            && events'[id].attempts <= configs[events[id].settings].Max()
    decreases |rounds|
  {
    if rounds != [] {
      RoundMoves(events, configs, rounds[0], id, last);
      EveryEventIsFinished(Run(events, configs, rounds[0].actions), configs, rounds[1..], id, rounds[0].until);
    }
  }

  /** All sweeps of the run are asked for the same connection, or none. */
  predicate SweepsOnly(actions: seq<Action>, only: Option<string>) {
    forall a | a in actions && a.Sweep? :: a.only == only
  }

  /**
   * An event whose worker died stays in processing while sweeps pass over its connection and jobs start
   * on due events.
   */
  lemma {:induction false} PassedOverStaysInProcessing(events: map<string, Event>, configs: map<string, Config>,
                                                       actions: seq<Action>, id: string, only: Option<string>)
    requires id in events && events[id].status == Processing
    requires SweepsOnly(actions, only) && !Covers(only, events[id].settings, configs)
    ensures var events' := Run(events, configs, actions);
            id in events' && events'[id].status == Processing
    decreases |actions|
  {
    if actions != [] {
      assert actions[0] in actions && forall a | a in actions[1..] :: a in actions;
      PassedOverStaysInProcessing(Apply(events, configs, actions[0]), configs, actions[1..], id, only);
    }
  }

  /** Some run of deliveries, jobs on due events and sweeps asked for in this way finishes the event. */
  ghost predicate CanFinish(events: map<string, Event>, configs: map<string, Config>, id: string, only: Option<string>)
  {
    exists actions: seq<Action> ::
      SweepsOnly(actions, only) && var events' := Run(events, configs, actions); id in events' && Terminal(events'[id])
  }

  /** An event whose worker died can still be finished in this way if and only if the sweeps cover its connection. */
  lemma FinishesExactlyWhenSwept(events: map<string, Event>, configs: map<string, Config>, id: string,
                                 only: Option<string>)
    requires AllInBudget(events, configs) && id in events && events[id].status == Processing
    ensures CanFinish(events, configs, id, only) <==> Covers(only, events[id].settings, configs)
  {
    var e, config := events[id], configs[events[id].settings];
    if Covers(only, e.settings, configs) {
      var now := e.modified + config.Timeout(0) + 1;
      var actions := [Sweep(only, 0, now), Job(id, now, Returns("processed"))];
      var swept := Apply(events, configs, actions[0]);
      assert swept[id] == Reaped(e, config.Max(), now);
      assert actions[1..] == [actions[1]] && actions[1..][1..] == [];
      var after := Apply(swept, configs, actions[1]);
      assert Run(swept, configs, [actions[1]]) == Run(after, configs, []) == after;
      assert Run(events, configs, actions) == after;
      assert SweepsOnly(actions, only) && Terminal(after[id]);
    } else {
      forall actions: seq<Action> | SweepsOnly(actions, only)
        ensures id in Run(events, configs, actions) && !Terminal(Run(events, configs, actions)[id])
      {
        PassedOverStaysInProcessing(events, configs, actions, id, only);
      }
    }
  }

  /**
   * The scheduler's own sweeps and jobs on due events can finish an event whose worker died if and only
   * if its connection is enabled; a sweep asked for its connection always can.
   */
  lemma FinishesExactlyWhenEnabled(events: map<string, Event>, configs: map<string, Config>, id: string)
    requires AllInBudget(events, configs) && id in events && events[id].status == Processing
    ensures CanFinish(events, configs, id, None) <==> configs[events[id].settings].enabled
    ensures CanFinish(events, configs, id, Some(events[id].settings))
  {
    FinishesExactlyWhenSwept(events, configs, id, None);
    FinishesExactlyWhenSwept(events, configs, id, Some(events[id].settings));
  }

  /**
   * A claim whose worker dies leaves any due event of a disabled connection to a sweep asked for that
   * connection, or to a job queued before: the scheduler never finishes it.
   */
  lemma DyingOnADisabledConnection(events: map<string, Event>, configs: map<string, Config>, id: string, now: int)
    requires AllInBudget(events, configs) && id in events && Due(events[id]) && !configs[events[id].settings].enabled
    ensures !CanFinish(Apply(events, configs, Job(id, now, Dies)), configs, id, None)
  {
    var claimed := Apply(events, configs, Job(id, now, Dies));
    assert claimed[id] == Claimed(events[id], now);
    ActionKeepsBudget(events, configs, Job(id, now, Dies), id);
    FinishesExactlyWhenEnabled(claimed, configs, id);
  }

  // ---------------------------------------------------------------- the budget and the timeout, by their fields

  /** The maximum a connection sets, and five where it sets none. */
  ghost predicate WithinLimit(e: Event, config: Config) {
    && (config.maxAttempts != 0 ==> e.attempts <= config.maxAttempts)
    && (config.maxAttempts == 0 ==> e.attempts <= 5)
    && (e.status == DeadLetter ==> e.attempts == if config.maxAttempts != 0 then config.maxAttempts else 5)
    && (e.status == Retrying ==> e.attempts < if config.maxAttempts != 0 then config.maxAttempts else 5)
  }

  /**
   * Over every run from an empty store no event has more attempts than its connection's field allows, and
   * a dead letter has exactly as many.
   */
  lemma AttemptsStayWithinTheField(configs: map<string, Config>, actions: seq<Action>, id: string)
    ensures var events := Run(map[], configs, actions);
            id in events ==> events[id].settings in configs && WithinLimit(events[id], configs[events[id].settings])
  {
    var events := Run(map[], configs, actions);
    ClaimsStayWithinBudget(map[], configs, actions, id);
    if id in events {
      assert InBudget(events[id], MaxFor(events[id], configs));
    }
  }

  /**
   * A handler that raises leaves the event to retry until the last attempt the field allows, and
   * then in dead letter.
   */
  lemma RaisingMeans(events: map<string, Event>, configs: map<string, Config>, id: string, now: int)
    requires id in events && events[id].settings in configs && Due(events[id]) && Supported(events[id].eventName)
    ensures var e, config := events[id], configs[events[id].settings];
            var limit := if config.maxAttempts != 0 then config.maxAttempts else 5;
            var e' := Apply(events, configs, Job(id, now, Raises))[id];
            && e'.attempts == e.attempts + 1 && e'.modified == now && e'.lastError == HandlerError
            && e'.status == if e.attempts + 1 < limit then Retrying else DeadLetter
  {
  }

  /** What a job leaves of an open event: the handler's word where there is a handler, ignored where there is none. */
  lemma JobMeans(events: map<string, Event>, configs: map<string, Config>, id: string, now: int, ending: Ending)
    requires id in events && events[id].settings in configs && events[id].status in {Received, Retrying}
             && !ending.Raises?
    ensures var e, events' := events[id], Apply(events, configs, Job(id, now, ending));
            var status := if ending == Dies then Processing
                          else if !Supported(e.eventName) || ending == Returns("ignored") then Ignored
                          else Processed;
            events' == events[id := e.(status := status, attempts := e.attempts + 1, modified := now)]
  {
  }

  lemma PrefixMeans(s: string, prefix: string)
    ensures StartsWith(s, prefix) <==> exists rest: string :: s == prefix + rest
  {
    if StartsWith(s, prefix) {
      assert s == prefix + s[|prefix|..];
    }
  }

  /** Handlers take the expense, bill and reimbursement events. */
  lemma SupportedMeans(name: string)
    ensures Supported(name) <==>
              exists kind: string, rest: string ::
                kind in {"spend.expense.", "spend.bill.", "spend.reimbursement_report."} && name == kind + rest
  {
    PrefixMeans(name, "spend.expense.");
    PrefixMeans(name, "spend.bill.");
    PrefixMeans(name, "spend.reimbursement_report.");
  }

  /**
   * A sweep takes an event back if and only if it is in processing, its connection is enabled or asked for,
   * and it is older than the minutes asked for, else those configured, else fifteen.
   */
  lemma SweepMeans(events: map<string, Event>, configs: map<string, Config>, only: Option<string>, asked: nat,
                   now: int, id: string)
    requires id in events && events[id].settings in configs
    ensures var e, config := events[id], configs[events[id].settings];
            var minutes :=
              if asked != 0 then asked else if config.timeoutMinutes != 0 then config.timeoutMinutes else 15;
            var limit := if config.maxAttempts != 0 then config.maxAttempts else 5;
            var e' := Apply(events, configs, Sweep(only, asked, now))[id];
            var covered := if only == None then config.enabled else only == Some(e.settings);
            if e.status == Processing && now - e.modified > minutes && covered
            then e' == if e.attempts < limit then e.(status := Retrying, lastError := StaleRetry, modified := now)
                       else e.(status := DeadLetter, lastError := StaleDeadLetter, modified := now)
            else e' == e
  {
  }

  /** A first delivery is received without attempts, a repeated one leaves all but its flag. */
  lemma DeliveryMeans(events: map<string, Event>, configs: map<string, Config>, id: string, settings: string,
                      name: string, now: int)
    requires settings in configs
    ensures var events' := Apply(events, configs, Deliver(id, settings, name, now));
            && id in events'
            && (id !in events ==>
                  && events'[id].settings == settings && events'[id].eventName == name && events'[id].status == Received
                  && events'[id].attempts == 0 && events'[id].modified == now && !events'[id].duplicate)
            && (id in events ==> events'[id] == events[id].(duplicate := true))
            && events' - {id} == events - {id}
  {
  }
}
