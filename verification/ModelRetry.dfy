/**
  The only path to a provider: reserve, call, settle, and retry a closed rejection
  (src/apexcrew/domain/coordination.py, lines 856-932). The authority and the provider reply anything; any port
  may raise.
*/
module ModelRetry {
  import opened Wrappers
  import opened Sequences
  import opened Ledger

  const PROVIDER_RETRY_CEILING := 2
  const BACKOFF_SECONDS := [1, 2]

  /** What the journal and the ports see, with the number of the provider attempt. */
  datatype Event =
    | Begun(attempt: nat)
    | Granted(attempt: nat)
    | Denied(attempt: nat)
    | Called(attempt: nat)
    | Charged(attempt: nat, kind: Kind)
    | Ended(attempt: nat)
    | BackedOff(attempt: nat, seconds: nat)

  type Trace = seq<Event>

  /** A retry is due: the last attempt was a closed rejection, and attempts are left. */
  predicate RetryDue(t: Trace) {
    && |t| >= 2 && Final(t).Ended? && t[|t| - 2] == Charged(Final(t).attempt, KNOWN_CLOSED_REJECTION)
    && Final(t).attempt <= PROVIDER_RETRY_CEILING
  }

  predicate Follows(t: Trace, e: Event) {
    match e
    case Begun(n) => if t == [] then n == 1 else Final(t).BackedOff? && n == Final(t).attempt + 1
    case Granted(n) => t != [] && Final(t) == Begun(n)
    case Denied(n) => t != [] && Final(t) == Begun(n)
    case Called(n) => t != [] && Final(t) == Granted(n)
    case Charged(n, _) => t != [] && Final(t) == Called(n)
    case Ended(n) => t != [] && Final(t).attempt == n && (Final(t).Charged? || Final(t).Denied?)
    case BackedOff(n, seconds) =>
      RetryDue(t) && n == Final(t).attempt && 1 <= n <= |BACKOFF_SECONDS| && seconds == BACKOFF_SECONDS[n - 1]
  }

  predicate WellOrdered(t: Trace)
    decreases |t|
  {
    t == [] || (WellOrdered(Init(t)) && Follows(Init(t), Final(t)))
  }

  /** Nothing is left to do: the last attempt was denied, or it was charged and no retry is due. */
  predicate Finished(t: Trace) {
    |t| >= 2 && Final(t).Ended? && !RetryDue(t)
  }

  // ---------- What well-ordered traces promise ----------

  /** Where an attempt stands: six events each, the last of them the backoff; a denial cuts it short. */
  predicate InPlace(t: Trace, i: nat)
    requires i < |t|
  {
    && t[i].attempt == i / 6 + 1 && t[i].attempt <= PROVIDER_RETRY_CEILING + 1
    && match i % 6
       case 0 => t[i].Begun?
       case 1 => t[i].Granted? || t[i].Denied?
       case 2 => if t[i - 1].Denied? then t[i].Ended? && i == |t| - 1 else t[i].Called?
       case 3 => t[i].Charged?
       case 4 => t[i].Ended?
       case _ =>
         t[i].BackedOff? && t[i - 2].Charged? && t[i - 2].kind == KNOWN_CLOSED_REJECTION && t[i].attempt <= 2
         && t[i].seconds == t[i].attempt
  }

  lemma {:induction false} EventsAreInPlace(t: Trace, i: nat)
    requires WellOrdered(t) && i < |t|
    ensures InPlace(t, i)
    decreases |t|, i
  {
    var before := Init(t);
    if i < |t| - 1 {
      EventsAreInPlace(before, i);
      EarlierInPlace(t, i);
    } else if i > 0 {
      EventsAreInPlace(before, i - 1);
      if i >= 2 { EventsAreInPlace(before, i - 2); }
      LastInPlace(t);
    }
  }

  lemma {:induction false} EarlierInPlace(t: Trace, i: nat)
    requires i < |t| - 1 && InPlace(Init(t), i) && Follows(Init(t), Final(t))
    ensures InPlace(t, i)
  {}

  lemma {:induction false} LastInPlace(t: Trace)
    requires |t| >= 2 && Follows(Init(t), Final(t)) && InPlace(Init(t), |t| - 2)
      && (|t| >= 3 ==> InPlace(Init(t), |t| - 3))
    ensures InPlace(t, |t| - 1)
  {}

  /** Attempts are numbered consecutively from one, there are at most three, and seventeen events end every run. */
  lemma {:induction false} AtMostThreeAttempts(t: Trace)
    requires WellOrdered(t)
    ensures |t| <= 17
    ensures forall i | 0 <= i < |t| :: t[i].attempt == i / 6 + 1 && 1 <= t[i].attempt <= 3
  {
    forall i | 0 <= i < |t| ensures t[i].attempt == i / 6 + 1 && 1 <= t[i].attempt <= 3 {
      EventsAreInPlace(t, i);
    }
    if |t| > 17 { EventsAreInPlace(t, 17); }
  }

  /** Barriers opened and not yet settled. */
  function OpenBarriers(t: Trace): int
    decreases |t|
  {
    if t == [] then 0
    else OpenBarriers(Init(t)) + (if Final(t).Begun? then 1 else if Final(t).Ended? then -1 else 0)
  }

  /** At most one barrier is open, and it is settled before the backoff, before the next one, and at the end. */
  lemma {:induction false} OneBarrierAtATime(t: Trace)
    requires WellOrdered(t)
    ensures OpenBarriers(t) == if t == [] || Final(t).Ended? || Final(t).BackedOff? then 0 else 1
    ensures Finished(t) ==> OpenBarriers(t) == 0
    decreases |t|
  {
    if t != [] { OneBarrierAtATime(Init(t)); }
  }

  /** The provider is called only for a granted reservation, inside the barrier opened for it. */
  lemma {:induction false} CallsAreCovered(t: Trace, i: nat)
    requires WellOrdered(t) && i < |t| && t[i].Called?
    ensures i >= 2 && t[i - 2] == Begun(t[i].attempt) && t[i - 1] == Granted(t[i].attempt)
    ensures OpenBarriers(t[..i]) == 1
  {
    EventsAreInPlace(t, i);
    assert i % 6 == 2;
    EventsAreInPlace(t, i - 1);
    EventsAreInPlace(t, i - 2);
    PrefixIsWellOrdered(t, i);
    OneBarrierAtATime(t[..i]);
    assert Final(t[..i]) == t[i - 1];
  }

  lemma {:induction false} PrefixIsWellOrdered(t: Trace, i: nat)
    requires WellOrdered(t) && i <= |t|
    ensures WellOrdered(t[..i])
    decreases |t|
  {
    if i == |t| {
      assert t[..i] == t;
    } else {
      PrefixIsWellOrdered(Init(t), i);
      assert Init(t)[..i] == t[..i];
    }
  }

  function Backoff(t: Trace): nat
    decreases |t|
  {
    if t == [] then 0 else Backoff(Init(t)) + (if Final(t).BackedOff? then Final(t).seconds else 0)
  }

  /** All waiting together takes at most three seconds. */
  lemma {:induction false} WaitsAreBounded(t: Trace)
    requires WellOrdered(t)
    ensures Backoff(t) <= 3
    ensures t != [] && Final(t).attempt == 1 ==> Backoff(t) <= 1
    ensures t != [] && Final(t).attempt == 1 && !Final(t).BackedOff? ==> Backoff(t) == 0
    ensures t != [] && Final(t).attempt == 2 && !Final(t).BackedOff? ==> Backoff(t) <= 1
    decreases |t|
  {
    if t != [] {
      WaitsAreBounded(Init(t));
      EventsAreInPlace(t, |t| - 1);
      if |t| >= 2 { EventsAreInPlace(t, |t| - 2); }
    }
  }

  // ---------- The client ----------

  /** How the ports reply to each attempt, and which call raises. */
  datatype Environment = Environment(authorizes: nat -> bool, answers: nat -> ProviderResult, raisesAt: nat)

  lemma {:induction false} FiveEvents(t: Trace, n: nat, kind: Kind)
    ensures t + [Begun(n)] + [Granted(n)] + [Called(n)] + [Charged(n, kind)] + [Ended(n)]
      == t + [Begun(n), Granted(n), Called(n), Charged(n, kind), Ended(n)]
  {}

  lemma {:induction false} ReplacedLast(before: seq<Attempt>, after: seq<Attempt>, closed: Attempt)
    requires |after| == |before| + 1 && after[..|before|] == before && after[|before|] == closed
    ensures after == before + [closed]
  {}

  lemma {:induction false} RefusedIsFinished(t: Trace, n: nat)
    ensures var u := t + [Begun(n), Denied(n), Ended(n)];
      Finished(u) && u[|u| - 2].Denied?
  {}

  /** A retry is due after a closed rejection, up to the ceiling. */
  lemma {:induction false} AnsweredRetries(t: Trace, n: nat, kind: Kind)
    requires n >= 1
    ensures var u := t + [Begun(n), Granted(n), Called(n), Charged(n, kind), Ended(n)];
      if kind == KNOWN_CLOSED_REJECTION && n <= PROVIDER_RETRY_CEILING
        then Follows(u, BackedOff(n, BACKOFF_SECONDS[n - 1])) else Finished(u)
  {}

  /** How one attempt ends. */
  datatype Tried = Answered(settlement: Settlement, kind: Kind) | Refused | Broken

  datatype Reply = Dispatched(settlement: Settlement) | NotReserved | Raised

  lemma {:induction false} Extended(t: Trace, e: Event)
    requires WellOrdered(t) && Follows(t, e)
    ensures WellOrdered(t + [e])
    ensures OpenBarriers(t + [e]) == OpenBarriers(t) + (if e.Begun? then 1 else if e.Ended? then -1 else 0)
    ensures Backoff(t + [e]) == Backoff(t) + (if e.BackedOff? then e.seconds else 0)
  {
    assert Init(t + [e]) == t;
  }

  /** The attempts that one request added to the journal are closed. */
  predicate AllClosed(attempts: seq<Attempt>, from: nat) {
    forall i | from <= i < |attempts| :: attempts[i].Closed?
  }

  /** At most one attempt was added, and none before it touched. */
  predicate Grows(before: seq<Attempt>, after: seq<Attempt>) {
    |before| <= |after| <= |before| + 1 && after[..|before|] == before
  }

  lemma {:induction false} StillClosed(before: seq<Attempt>, after: seq<Attempt>, from: nat)
    requires from <= |before| && AllClosed(before, from) && Grows(before, after)
    ensures AllClosed(after, |before|) ==> AllClosed(after, from)
    ensures after[..from] == before[..from]
  {
    forall i | from <= i < |after| && AllClosed(after, |before|) ensures after[i].Closed? {
      if i < |before| { assert after[i] == after[..|before|][i] == before[i]; }
    }
    assert after[..from] == after[..|before|][..from];
  }

  class AuthorityModelClient {
    const env: Environment
    const journal: ModelJournal
    var calls: nat
    var barrier: Option<nat>
    var waited: nat
    ghost var trace: Trace

    constructor (env: Environment, journal: ModelJournal)
      requires journal.counters == Total(journal.attempts)
      ensures this.env == env && this.journal == journal && barrier == None && trace == [] && calls == 0 && waited == 0
      ensures Valid()
    {
      this.env := env;
      this.journal := journal;
      calls := 0;
      barrier := None;
      waited := 0;
      trace := [];
    }

    /**
      The open barrier is the one that the trace has opened, the waits are its backoffs, and the ledger is balanced.
    */
    ghost predicate Valid()
      reads this, journal
    {
      && WellOrdered(trace)
      && (barrier.Some? <==> OpenBarriers(trace) == 1)
      && (barrier.Some? ==> trace != [] && barrier == Some(Final(trace).attempt))
      && waited == Backoff(trace)
      && journal.counters == Total(journal.attempts)
    }

    /** A port has raised since then. */
    ghost predicate RaisedSince(start: nat)
      reads this`calls
    {
      start <= env.raisesAt < calls
    }

    /** The last thing that happened was a call whose answer cannot be settled. */
    ghost predicate AnswerIsMalformed(intent: Intent)
      reads this`trace
    {
      trace != [] && Final(trace).Called? && FromResult(intent, env.answers(Final(trace).attempt)).Err?
    }

    /** The authority grants the attempt, and it fits under the ceilings. */
    ghost predicate Grants(n: nat, intent: Intent)
      reads journal
    {
      env.authorizes(n) && AtMost(AfterReserve(journal.counters, intent.reserved), journal.ceilings)
    }

    /** Whether the next port call returns. */
    method Proceed() returns (ok: bool)
      modifies this`calls
      ensures ok == (old(calls) != env.raisesAt) && calls == old(calls) + 1
    {
      ok := calls != env.raisesAt;
      calls := calls + 1;
    }

    ghost method Log(e: Event)
      requires WellOrdered(trace) && Follows(trace, e)
      modifies this`trace
      ensures trace == old(trace) + [e] && WellOrdered(trace)
      ensures OpenBarriers(trace) == old(OpenBarriers(trace)) + (if e.Begun? then 1 else if e.Ended? then -1 else 0)
      ensures Backoff(trace) == old(Backoff(trace)) + (if e.BackedOff? then e.seconds else 0)
    {
      Extended(trace, e);
      trace := trace + [e];
    }

    /** Begin the barrier and ask for the reservation. */
    method ReserveAttempt(n: nat, intent: Intent) returns (ok: bool, id: Option<nat>)
      requires Valid() && barrier == None && Follows(trace, Begun(n))
      modifies this`calls, this`barrier, this`trace, journal
      ensures Valid()
      ensures ok && id.Some? ==>
        trace == old(trace) + [Begun(n)] + [Granted(n)] && barrier == Some(n)
        && id.value == |old(journal.attempts)| && journal.attempts == old(journal.attempts) + [Reserved(intent)]
      ensures ok && id.None? ==> trace == old(trace) + [Begun(n)] + [Denied(n)] && barrier == Some(n)
      ensures !(ok && id.Some?) ==>
        journal.attempts == old(journal.attempts) && journal.counters == old(journal.counters)
      ensures ok <==> !RaisedSince(old(calls))
      ensures ok ==> (id.Some? <==> old(Grants(n, intent)))
      ensures !ok ==> !AnswerIsMalformed(intent)
      ensures old(calls) <= calls <= old(calls) + 2
    {
      id := None;
      ok := Proceed();
      if !ok { return; }
      OneBarrierAtATime(trace);
      Log(Begun(n));
      barrier := Some(n);
      ok := Proceed();
      if !ok { return; }
      PerformConserves(journal.Contents(), Operation.ReserveAttempt(intent), journal.ceilings);
      if env.authorizes(n) { id := journal.Reserve(intent); }
      if id == None { Log(Denied(n)); } else { Log(Granted(n)); }
    }

    /** Call the provider and settle what it answers. */
    method CallProvider(n: nat, id: nat) returns (settled: Option<(Settlement, Kind)>)
      requires Valid() && barrier == Some(n) && trace != [] && Final(trace) == Granted(n)
      requires id == |journal.attempts| - 1 && journal.attempts[id].Reserved?
      modifies this`calls, this`trace, journal
      ensures Valid() && barrier == Some(n)
      ensures |journal.attempts| == |old(journal.attempts)| && journal.attempts[..id] == old(journal.attempts)[..id]
      ensures settled.Some? ==>
        trace == old(trace) + [Called(n)] + [Charged(n, settled.value.1)]
        && journal.attempts[id] == Closed(old(journal.attempts)[id].intent, settled.value.0)
        && settled.value.1 == env.answers(n).kind
        && FromResult(old(journal.attempts)[id].intent, env.answers(n)) == Ok(settled.value.0)
      ensures settled == None <==> RaisedSince(old(calls)) || AnswerIsMalformed(old(journal.attempts)[id].intent)
      ensures old(calls) <= calls <= old(calls) + 2
    {
      settled := None;
      var ok := Proceed();
      Log(Called(n));
      if !ok { return; }
      var result := env.answers(n);
      ok := Proceed();
      if !ok { return; }
      PerformConserves(journal.Contents(), Operation.SettleAttempt(id, result), journal.ceilings);
      var settlement := journal.Settle(id, result);
      if settlement.Err? { return; }
      Log(Charged(n, result.kind));
      settled := Some((settlement.value, result.kind));
    }

    /** Settle the barrier. */
    method EndBarrier(n: nat) returns (ok: bool)
      requires Valid() && barrier == Some(n) && Follows(trace, Ended(n))
      modifies this`calls, this`barrier, this`trace
      ensures Valid() && (ok ==> barrier == None && trace == old(trace) + [Ended(n)])
      ensures !ok ==> trace == old(trace) && barrier == old(barrier)
      ensures ok <==> !RaisedSince(old(calls))
      ensures calls == old(calls) + 1
    {
      ok := Proceed();
      if !ok { return; }
      OneBarrierAtATime(trace);
      Log(Ended(n));
      barrier := None;
    }

    /** One attempt within its own barrier. */
    method TryAttempt(n: nat, intent: Intent) returns (tried: Tried)
      requires Valid() && barrier == None && Follows(trace, Begun(n))
      modifies this`calls, this`barrier, this`trace, journal
      ensures Valid()
      ensures Grows(old(journal.attempts), journal.attempts)
      ensures tried == Refused ==> trace == old(trace) + [Begun(n), Denied(n), Ended(n)] && barrier == None
      ensures tried == Refused ==> journal.attempts == old(journal.attempts)
      ensures tried.Answered? ==>
        trace == old(trace) + [Begun(n), Granted(n), Called(n), Charged(n, tried.kind), Ended(n)]
      ensures tried.Answered? ==> journal.attempts == old(journal.attempts) + [Closed(intent, tried.settlement)]
      ensures tried.Answered? ==> barrier == None
      ensures tried.Answered? ==>
        tried.kind == env.answers(n).kind && FromResult(intent, env.answers(n)) == Ok(tried.settlement)
      ensures tried == Refused ==> !Grants(n, intent)
      ensures tried == Broken <==> RaisedSince(old(calls)) || AnswerIsMalformed(intent)
      ensures old(calls) <= calls <= old(calls) + 5
    {
      var ok, id := ReserveAttempt(n, intent);
      if !ok { return Broken; }
      if id == None {
        ok := EndBarrier(n);
        return if ok then Refused else Broken;
      }
      var settled := CallProvider(n, id.value);
      if settled == None { return Broken; }
      ok := EndBarrier(n);
      FiveEvents(old(trace), n, settled.value.1);
      ReplacedLast(old(journal.attempts), journal.attempts, Closed(intent, settled.value.0));
      return if ok then Answered(settled.value.0, settled.value.1) else Broken;
    }

    /** Record the backoff and wait. */
    method BackOff(n: nat, seconds: nat) returns (ok: bool)
      requires Valid() && barrier == None && Follows(trace, BackedOff(n, seconds))
      modifies this`calls, this`trace, this`waited
      ensures Valid() && barrier == None
      ensures ok ==> Follows(trace, Begun(n + 1))
      ensures !ok ==> trace == old(trace)
      ensures ok <==> !RaisedSince(old(calls))
      ensures calls == old(calls) + 1
    {
      OneBarrierAtATime(trace);
      ok := Proceed();
      if !ok { return; }
      Log(BackedOff(n, seconds));
      waited := waited + seconds;
    }

    /** One turn of the loop: the reply, or a backoff before the next attempt. */
    method TakeAttempt(retryIndex: nat, intent: Intent) returns (reply: Option<Reply>)
      requires Valid() && barrier == None && retryIndex <= PROVIDER_RETRY_CEILING
        && Follows(trace, Begun(retryIndex + 1))
      modifies this`calls, this`barrier, this`trace, this`waited, journal
      ensures Valid()
      ensures Grows(old(journal.attempts), journal.attempts)
      ensures reply == None ==>
        retryIndex < PROVIDER_RETRY_CEILING && barrier == None && Follows(trace, Begun(retryIndex + 2))
      ensures reply == None ==> |journal.attempts| == |old(journal.attempts)| + 1
      ensures reply != Some(Raised) ==> AllClosed(journal.attempts, |old(journal.attempts)|)
      ensures reply.Some? && reply.value != Raised ==> Finished(trace) && barrier == None
      ensures reply == Some(NotReserved) ==> |trace| >= 2 && trace[|trace| - 2].Denied?
      ensures reply == Some(NotReserved) ==> !Grants(Final(trace).attempt, intent)
      ensures reply.Some? && reply.value.Dispatched? ==>
        journal.attempts == old(journal.attempts) + [Closed(intent, reply.value.settlement)]
      ensures reply.Some? && reply.value.Dispatched? ==>
        FromResult(intent, env.answers(Final(trace).attempt)) == Ok(reply.value.settlement)
      ensures reply == Some(Raised) <==> RaisedSince(old(calls)) || AnswerIsMalformed(intent)
      ensures old(calls) <= calls <= old(calls) + 6
    {
      var n := retryIndex + 1;
      ghost var before := trace;
      var tried := TryAttempt(n, intent);
      if tried == Broken { return Some(Raised); }
      if tried == Refused {
        RefusedIsFinished(before, n);
        return Some(NotReserved);
      }
      AnsweredRetries(before, n, tried.kind);
      if tried.kind != KNOWN_CLOSED_REJECTION || retryIndex == PROVIDER_RETRY_CEILING {
        return Some(Dispatched(tried.settlement));
      }
      var ok := BackOff(n, BACKOFF_SECONDS[retryIndex]);
      return if ok then None else Some(Raised);
    }

    /**
      `complete`: at most three attempts, each within its own barrier. It raises exactly if a port raised or an
      answer could not be settled; otherwise every barrier is settled, every attempt closed, and the reply is
      the outcome of the last one.
    */
    method Complete(intent: Intent) returns (reply: Reply)
      requires Valid() && trace == []
      modifies this, journal
      ensures Valid()
      ensures reply != Raised ==>
        Finished(trace) && barrier == None && AllClosed(journal.attempts, |old(journal.attempts)|)
      ensures reply == Raised <==> RaisedSince(old(calls)) || AnswerIsMalformed(intent)
      ensures calls <= old(calls) + 18
      ensures reply == NotReserved ==>
        |trace| >= 2 && trace[|trace| - 2].Denied? && !Grants(Final(trace).attempt, intent)
      ensures reply.Dispatched? ==> |journal.attempts| > |old(journal.attempts)|
      ensures reply.Dispatched? ==> journal.attempts[|journal.attempts| - 1] == Closed(intent, reply.settlement)
      ensures reply.Dispatched? ==> FromResult(intent, env.answers(Final(trace).attempt)) == Ok(reply.settlement)
      ensures |old(journal.attempts)| <= |journal.attempts| <= |old(journal.attempts)| + PROVIDER_RETRY_CEILING + 1
      ensures journal.attempts[..|old(journal.attempts)|] == old(journal.attempts)
    {
      ghost var start := |journal.attempts|;
      for retryIndex := 0 to PROVIDER_RETRY_CEILING + 1
        invariant retryIndex <= PROVIDER_RETRY_CEILING
        invariant Valid() && barrier == None && Follows(trace, Begun(retryIndex + 1))
        invariant AllClosed(journal.attempts, start) && |journal.attempts| == start + retryIndex
        invariant journal.attempts[..start] == old(journal.attempts)
        invariant old(calls) <= calls <= old(calls) + 6 * retryIndex && !RaisedSince(old(calls))
      {
        ghost var attempts := journal.attempts;
        var taken := TakeAttempt(retryIndex, intent);
        StillClosed(attempts, journal.attempts, start);
        if taken.Some? { return taken.value; }
      }
      assert false;
    }
  }
}
