/** Alert delivery as interleaved atomic steps: any number of senders, and the thread of the system
    work queue that runs the handler. */
module Alert {

  /** Where the work-queue thread is with this alert's work item: waiting for it, holding it, about to
      call the handler, or between the handler and the decrement. */
  datatype Worker = Waiting | Holding | Calling | Called

  /** `count` is `send_count` and `pending` the work item's flag. `raised` senders have seen the
      count at zero and not yet read the flag, `claimed` have set the flag and not yet queued the
      item, and `queued` is how often the item is in the queue. `sends`, `runs` and `pends` count
      increments, handler calls, and alerts that the handler left to be received. */
  datatype State = State(count: nat, pending: bool, raised: nat, claimed: nat, queued: nat, worker: Worker,
                         sends: nat, runs: nat, pends: nat)

  datatype Action =
    | Increment
    | TestAndSet
    | Append
    | Dequeue
    | TestAndClear
    | Handle(handled: bool)
    | Decrement

  predicate Enabled(s: State, a: Action) {
    match a
    case Increment => true
    case TestAndSet => s.raised > 0
    case Append => s.claimed > 0
    case Dequeue => s.worker == Waiting && s.queued > 0
    case TestAndClear => s.worker == Holding
    case Handle(_) => s.worker == Calling
    case Decrement => s.worker == Called
  }

  function Next(s: State, a: Action): (r: State)
    requires Enabled(s, a)
  {
    match a
    case Increment =>
      s.(count := s.count + 1, sends := s.sends + 1, raised := s.raised + if s.count == 0 then 1 else 0)
    case TestAndSet =>
      s.(raised := s.raised - 1, pending := true, claimed := s.claimed + if s.pending then 0 else 1)
    case Append => s.(claimed := s.claimed - 1, queued := s.queued + 1)
    case Dequeue => s.(queued := s.queued - 1, worker := Holding)
    case TestAndClear => s.(pending := false, worker := if s.pending then Calling else Waiting)
    case Handle(handled) => s.(worker := Called, runs := s.runs + 1, pends := s.pends + if handled then 0 else 1)
    case Decrement =>
      s.(count := if s.count > 0 then s.count - 1 else 0, worker := if s.count == 1 then Waiting else Calling)
  }

  function Start(): (s: State) {
    State(0, false, 0, 0, 0, Waiting, 0, 0, 0)
  }

  /** Alerts sent whose handler call has not happened yet. */
  function Undelivered(s: State): (n: int) {
    s.count - if s.worker == Called then 1 else 0
  }

  /** How many parties are seeing to the delivery. */
  function Parties(s: State): (n: nat) {
    s.raised + s.claimed + s.queued + if s.worker == Waiting then 0 else 1
  }

  /** Exactly one party sees to the delivery while there is something to deliver, and none otherwise;
      the flag is set from the claim until the work-queue thread takes over; and every alert sent has
      been handled once or is undelivered. */
  ghost predicate Inv(s: State) {
    && Parties(s) == (if s.count > 0 then 1 else 0)
    && (s.pending <==> s.claimed + s.queued + (if s.worker == Holding then 1 else 0) > 0)
    && s.runs + Undelivered(s) == s.sends
    && Undelivered(s) >= 0
    && s.pends <= s.runs
  }

  lemma NextKeepsInv(s: State, a: Action)
    requires Inv(s) && Enabled(s, a)
    ensures Inv(Next(s, a))
  {
  }

  /** An increment that returns 0 finds the flag clear, it stays clear until that sender tests it, and
      so the submission takes effect; a dequeued item is never dropped. */
  lemma SubmissionTakesEffect(s: State)
    requires Inv(s)
    ensures s.count == 0 ==> !s.pending
    ensures s.raised > 0 ==> !s.pending
    ensures s.worker == Holding ==> s.pending
    ensures s.queued <= 1 && s.claimed + s.queued <= 1
  {
  }

  // ---- runs

  datatype Outcome = Stuck | At(state: State)

  function Run(actions: seq<Action>): (r: Outcome)
    decreases |actions|
  {
    if actions == [] then At(Start())
    else
      var n := |actions| - 1;
      match Run(actions[..n])
      case Stuck => Stuck
      case At(s) => if Enabled(s, actions[n]) then At(Next(s, actions[n])) else Stuck
  }

  function Sends(actions: seq<Action>): (n: nat) {
    if actions == [] then 0 else Sends(actions[..|actions| - 1]) + if actions[|actions| - 1].Increment? then 1 else 0
  }

  function Handled(actions: seq<Action>): (n: nat) {
    if actions == [] then 0 else Handled(actions[..|actions| - 1]) + if actions[|actions| - 1].Handle? then 1 else 0
  }

  /** Under every interleaving, handler calls plus undelivered alerts are the alerts sent, and the work
      item is never in the queue twice. */
  lemma {:induction false} EveryRunDeliversOnce(actions: seq<Action>)
    requires Run(actions).At?
    ensures var s := Run(actions).state;
      Inv(s) && s.queued <= 1 && Handled(actions) + Undelivered(s) == Sends(actions)
    decreases |actions|
  {
    RunCounts(actions);
    if actions != [] {
      var n := |actions| - 1;
      EveryRunDeliversOnce(actions[..n]);
      NextKeepsInv(Run(actions[..n]).state, actions[n]);
    }
    SubmissionTakesEffect(Run(actions).state);
  }

  lemma {:induction false} RunCounts(actions: seq<Action>)
    requires Run(actions).At?
    ensures Run(actions).state.sends == Sends(actions) && Run(actions).state.runs == Handled(actions)
    decreases |actions|
  {
    if actions != [] { RunCounts(actions[..|actions| - 1]); }
  }

  /** Steps of delivery still to come if nobody sends any more. */
  function Work(s: State): (n: nat) {
    2 * s.count + 5 * s.raised + 4 * s.claimed + 3 * s.queued
    + match s.worker
      case Waiting => 0
      case Holding => 2
      case Calling => 1
      case Called => 0
  }

  /** Delivery never gets stuck: while an alert is undelivered or half delivered some step other than
      a send can be taken, and every such step brings the end nearer. */
  lemma DeliveryProgresses(s: State)
    requires Inv(s)
    ensures s.count > 0 ==> exists a: Action :: !a.Increment? && Enabled(s, a)
    ensures forall a | Enabled(s, a) && !a.Increment? :: Work(Next(s, a)) < Work(s)
    ensures (forall a: Action | !a.Increment? :: !Enabled(s, a)) ==> s.runs == s.sends
  {
    if s.count > 0 {
      assert Enabled(s, TestAndSet) || Enabled(s, Append) || Enabled(s, Dequeue) || Enabled(s, TestAndClear)
          || Enabled(s, Handle(true)) || Enabled(s, Decrement);
    }
  }
}
