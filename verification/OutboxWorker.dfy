/**
 Processing one message from the broker: dispatch with retries, dead letter, commit. Whatever fails,
 an offset is committed only after the message was dispatched or stored as a dead letter.
 */
module OutboxWorker {

  datatype Outcome = Succeeds | RaisesApplicationError | RaisesOtherError

  /**
   What the surroundings do during one delivery: whether the message decodes, how each attempt to
   dispatch and to commit ends, and whether the dead letter is published and then committed.
   */
  datatype Delivery = Delivery(
    decodes: bool, dispatch: nat -> Outcome, commit: nat -> Outcome, publish: bool, commitDeadLetter: bool)

  datatype Action = Dispatched(outcome: Outcome) | Committed(done: bool) | Published(done: bool)

  /** The attempt is the last one whatever its number: it was committed, or its error is not retried. */
  predicate Final(d: Delivery, attempt: nat) {
    match d.dispatch(attempt)
    case Succeeds => d.commit(attempt) != RaisesOtherError
    case RaisesApplicationError => true
    case RaisesOtherError => false
  }

  predicate Completes(d: Delivery, attempt: nat) {
    d.dispatch(attempt) == Succeeds && d.commit(attempt) == Succeeds
  }

  function Dispatches(trace: seq<Action>): nat {
    if trace == [] then 0
    else Dispatches(trace[..|trace| - 1]) + if trace[|trace| - 1].Dispatched? then 1 else 0
  }

  /** Every commit directly follows a completed dispatch or a published dead letter. */
  ghost predicate CommitsAreEarned(trace: seq<Action>) {
    forall i | 0 <= i < |trace| && trace[i].Committed? ::
      i > 0 && (trace[i - 1] == Dispatched(Succeeds) || trace[i - 1] == Published(true))
  }

  /** The message was dispatched, or is stored as a dead letter. */
  ghost predicate Kept(trace: seq<Action>) {
    exists i | 0 <= i < |trace| :: trace[i] == Dispatched(Succeeds) || trace[i] == Published(true)
  }

  predicate EndsCommitted(trace: seq<Action>) {
    trace != [] && trace[|trace| - 1] == Committed(true)
  }

  /** One more action at the end of a trace. */
  lemma {:induction false} Extend(trace: seq<Action>, action: Action)
    ensures Dispatches(trace + [action]) == Dispatches(trace) + if action.Dispatched? then 1 else 0
    ensures CommitsAreEarned(trace)
            && (action.Committed? ==> trace != [] && trace[|trace| - 1] in {Dispatched(Succeeds), Published(true)})
            ==> CommitsAreEarned(trace + [action])
    ensures Published(true) in trace + [action] <==> Published(true) in trace || action == Published(true)
  {
    assert (trace + [action])[..|trace|] == trace;
    assert forall i | 0 <= i < |trace| :: (trace + [action])[i] == trace[i];
  }

  method DeadLetter(d: Delivery, trace: seq<Action>) returns (trace': seq<Action>, raised: bool)
    requires CommitsAreEarned(trace)
    ensures CommitsAreEarned(trace') && Dispatches(trace') == Dispatches(trace)
    ensures raised <==> !(d.publish && d.commitDeadLetter)
    ensures !raised <==> EndsCommitted(trace')
    ensures Published(true) in trace' <==> d.publish || Published(true) in trace
    ensures Published(d.publish) in trace'
  {
    Extend(trace, Published(d.publish));
    trace' := trace + [Published(d.publish)];
    assert trace'[|trace|] == Published(d.publish);
    if !d.publish {
      return trace', true;
    }
    Extend(trace', Committed(d.commitDeadLetter));
    trace' := trace' + [Committed(d.commitDeadLetter)];
    raised := !d.commitDeadLetter;
  }

  /** One attempt: the message is dispatched and, after that, its offset committed. */
  method Attempt(d: Delivery, attempt: nat, trace: seq<Action>) returns (trace': seq<Action>, committed: bool)
    requires CommitsAreEarned(trace)
    ensures CommitsAreEarned(trace') && Dispatches(trace') == Dispatches(trace) + 1
    ensures committed <==> Completes(d, attempt)
    ensures committed ==> EndsCommitted(trace')
    ensures Published(true) in trace' <==> Published(true) in trace
  {
    Extend(trace, Dispatched(d.dispatch(attempt)));
    trace' := trace + [Dispatched(d.dispatch(attempt))];
    if d.dispatch(attempt) != Succeeds {
      return trace', false;
    }
    committed := d.commit(attempt) == Succeeds;
    Extend(trace', Committed(committed));
    trace' := trace' + [Committed(committed)];
  }

  /** `process`: `raised` says that an error left the method, so that the worker stops uncommitted. */
  method Process(d: Delivery, maxRetries: nat) returns (trace: seq<Action>, raised: bool)
    ensures CommitsAreEarned(trace)
    ensures !raised <==> EndsCommitted(trace)
    ensures !d.decodes ==> Dispatches(trace) == 0 && Published(d.publish) in trace
    ensures d.decodes && !Completes(d, Dispatches(trace)) ==> Published(d.publish) in trace
    ensures raised <==> !(d.publish && d.commitDeadLetter) && !(d.decodes && Completes(d, Dispatches(trace)))
    ensures d.decodes ==>
      && 1 <= Dispatches(trace) <= maxRetries + 1
      && (forall a: nat | 1 <= a < Dispatches(trace) :: !Final(d, a))
      && (Final(d, Dispatches(trace)) || Dispatches(trace) == maxRetries + 1)
      && (forall a: nat | 1 <= a < Dispatches(trace) ::
            d.dispatch(a) == RaisesOtherError || (d.dispatch(a) == Succeeds && d.commit(a) == RaisesOtherError))
      && (Dispatches(trace) == maxRetries + 1 || d.dispatch(Dispatches(trace)) == RaisesApplicationError
          || (d.dispatch(Dispatches(trace)) == Succeeds && d.commit(Dispatches(trace)) != RaisesOtherError))
      && (Published(true) in trace <==> !Completes(d, Dispatches(trace)) && d.publish)
    ensures d.decodes && d.dispatch(1) == RaisesApplicationError ==> Dispatches(trace) == 1
  {
    trace := [];
    if !d.decodes {
      trace, raised := DeadLetter(d, trace);
      return;
    }
    var attempt := 1;
    assert d.dispatch(1) == RaisesApplicationError ==> Final(d, 1);
    while true
      invariant 1 <= attempt <= maxRetries + 1
      invariant CommitsAreEarned(trace) && Dispatches(trace) == attempt - 1 && Published(true) !in trace
      invariant forall a: nat | 1 <= a < attempt :: !Final(d, a)
      invariant forall a: nat | 1 <= a < attempt ::
        d.dispatch(a) == RaisesOtherError || (d.dispatch(a) == Succeeds && d.commit(a) == RaisesOtherError)
      decreases maxRetries + 1 - attempt
    {
      var committed: bool;
      trace, committed := Attempt(d, attempt, trace);
      if committed {
        return trace, false;
      }
      if Final(d, attempt) || attempt == maxRetries + 1 {
        break;
      }
      attempt := attempt + 1;
    }
    trace, raised := DeadLetter(d, trace);
  }

  lemma {:induction false} CommittedIsKept(trace: seq<Action>)
    requires CommitsAreEarned(trace) && EndsCommitted(trace)
    ensures Kept(trace)
  {
    var i := |trace| - 2;
    assert trace[i] == Dispatched(Succeeds) || trace[i] == Published(true);
  }

  /** One delivery in the history of a partition: at which offset, and what was done. */
  datatype Delivered = Delivered(offset: nat, trace: seq<Action>)

  /** Some delivery of the message at this offset dispatched it or stored its dead letter. */
  ghost predicate NotLost(history: seq<Delivered>, offset: nat) {
    exists h | h in history :: h.offset == offset && Kept(h.trace)
  }

  /**
   The worker over any pattern of failures: a delivery that raises stops the worker, and the message
   at the uncommitted offset is delivered again. No message before the committed offset is lost.
   */
  method RunPartition(deliveries: seq<Delivery>, maxRetries: nat) returns (offset: nat, history: seq<Delivered>)
    ensures offset <= |history| == |deliveries|
    ensures forall o: nat | o < offset :: NotLost(history, o)
    ensures forall h | h in history :: h.offset <= offset && Dispatches(h.trace) <= maxRetries + 1
    ensures forall h | h in history && h.offset == offset :: !EndsCommitted(h.trace)
  {
    offset, history := 0, [];
    for i := 0 to |deliveries|
      invariant offset <= |history| == i
      invariant forall o: nat | o < offset :: NotLost(history, o)
      invariant forall h | h in history :: h.offset <= offset && Dispatches(h.trace) <= maxRetries + 1
      invariant forall h | h in history && h.offset == offset :: !EndsCommitted(h.trace)
    {
      var trace, raised := Process(deliveries[i], maxRetries);
      var delivered := Delivered(offset, trace);
      ghost var before := history;
      history := history + [delivered];
      forall o: nat | o < offset ensures NotLost(history, o) {
        assert NotLost(before, o);
        var h :| h in before && h.offset == o && Kept(h.trace);
        assert h in history;
      }
      if !raised {
        CommittedIsKept(trace);
        assert delivered in history;
        offset := offset + 1;
      }
    }
  }
}
