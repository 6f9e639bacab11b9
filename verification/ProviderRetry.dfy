/** Retry and failover: every provider in turn, each with its attempts and its growing pauses. */
module ProviderRetry {
  import opened Wrappers

  /** What reading, parsing and checking the body of a response comes to. */
  datatype Body = TooLarge | Unusable | Usable(output: string)

  datatype Reply = Response(status: int, body: Body) | Timeout | HttpError

  datatype Failure = TimedOut | Unavailable | BadResponse

  datatype Verdict = Done(output: string) | Retry(failure: Failure) | GiveUp(failure: Failure)

  datatype Step = Request(provider: nat, attempt: nat) | Sleep(provider: nat, attempt: nat, seconds: real)

  datatype Outcome = Generated(provider: nat, output: string) | Raised(failure: Failure) | NotConfigured

  /** The settings of a call, and what each request would get. */
  datatype Call = Call(maxAttempts: nat, base: real, reply: (nat, nat) -> Reply)
  {
    function Verdict(provider: nat, attempt: nat): Verdict {
      Judge(reply(provider, attempt))
    }
  }

  predicate RetryableStatus(status: int) {
    status in {408, 409, 425, 429} || status >= 500
  }

  function Judge(reply: Reply): Verdict {
    match reply
    case Timeout => Retry(TimedOut)
    case HttpError => Retry(Unavailable)
    case Response(status, body) =>
      if body.TooLarge? then GiveUp(BadResponse)
      else if status >= 400 then
        if RetryableStatus(status) then Retry(BadResponse) else GiveUp(BadResponse)
      else if body.Unusable? then GiveUp(BadResponse)
      else Done(body.output)
  }

  function Power(n: nat): (r: int)
    ensures r >= 1
  {
    if n == 0 then 1 else 2 * Power(n - 1)
  }

  /** The pause after an attempt: the base, doubled after every attempt. */
  function Backoff(c: Call, attempt: nat): real {
    if attempt == 0 then c.base else 2.0 * Backoff(c, attempt - 1)
  }

  /** That is base * 2^attempt, as it is computed. */
  lemma {:induction false} BackoffIsPower(c: Call, attempt: nat)
    ensures Backoff(c, attempt) == c.base * Power(attempt) as real
  {
    if attempt > 0 {
      BackoffIsPower(c, attempt - 1);
      Twice(c.base, Power(attempt - 1));
    }
  }

  lemma Twice(x: real, n: int)
    ensures x * (2 * n) as real == 2.0 * (x * n as real)
  {
    assert (2 * n) as real == 2.0 * n as real;
  }

  // ----- What the schedule promises -----

  /** The attempt is made, if its provider is tried at all: every attempt before it asked for a retry. */
  predicate Tried(c: Call, provider: nat, attempt: nat) {
    attempt < c.maxAttempts && forall b: nat :: b < attempt ==> c.Verdict(provider, b).Retry?
  }

  predicate AnsweredAt(c: Call, provider: nat, attempt: nat) {
    Tried(c, provider, attempt) && c.Verdict(provider, attempt).Done?
  }

  ghost predicate Answers(c: Call, provider: nat) {
    exists a: nat :: AnsweredAt(c, provider, a)
  }

  /** No provider from the first one on, and before this one, answers. */
  ghost predicate NoneBefore(c: Call, first: nat, provider: nat) {
    forall q: nat :: first <= q < provider ==> !Answers(c, q)
  }

  /** The step that may come right after another. */
  predicate Follows(c: Call, x: Step, y: Step) {
    match (x, y)
    case (Request(p, a), Sleep(q, b, seconds)) =>
      q == p && b == a && a + 1 < c.maxAttempts && c.Verdict(p, a).Retry? && seconds == Backoff(c, a) > 0.0
    case (Sleep(p, a, _), Request(q, b)) => q == p && b == a + 1
    case (Request(p, a), Request(q, b)) =>
      || (q == p && b == a + 1 && c.Verdict(p, a).Retry? && Backoff(c, a) <= 0.0)
      || (q == p + 1 && b == 0 && (c.Verdict(p, a).GiveUp? || (c.Verdict(p, a).Retry? && a + 1 == c.maxAttempts)))
    case (Sleep(_, _, _), Sleep(_, _, _)) => false
  }

  /** Every step may follow the one before it, the first is a provider's first request, the last a request. */
  predicate Orderly(c: Call, first: nat, log: seq<Step>) {
    && (forall i :: 0 <= i < |log| - 1 ==> Follows(c, log[i], log[i + 1]))
    && (log != [] ==> log[0] == Request(first, 0) && log[|log| - 1].Request?)
  }

  function Requests(log: seq<Step>): nat {
    if log == [] then 0 else (if log[0].Request? then 1 else 0) + Requests(log[1..])
  }

  function Slept(log: seq<Step>): real {
    if log == [] then 0.0 else (if log[0].Sleep? then log[0].seconds else 0.0) + Slept(log[1..])
  }

  // ----- The run, request by request -----

  datatype Ending = Answer(output: string) | Failed(last: Option<Failure>)

  function Pause(c: Call, provider: nat, attempt: nat): seq<Step> {
    if attempt + 1 >= c.maxAttempts || Backoff(c, attempt) <= 0.0 then []
    else [Sleep(provider, attempt, Backoff(c, attempt))]
  }

  /** The steps with one provider, from an attempt on. */
  function ProviderLog(c: Call, provider: nat, attempt: nat): seq<Step>
    decreases c.maxAttempts - attempt
  {
    if attempt >= c.maxAttempts then []
    else if c.Verdict(provider, attempt).Retry? then
      [Request(provider, attempt)] + Pause(c, provider, attempt) + ProviderLog(c, provider, attempt + 1)
    else [Request(provider, attempt)]
  }

  function ProviderEnd(c: Call, provider: nat, attempt: nat, last: Option<Failure>): Ending
    decreases c.maxAttempts - attempt
  {
    if attempt >= c.maxAttempts then Failed(last)
    else match c.Verdict(provider, attempt)
      case Done(output) => Answer(output)
      case GiveUp(failure) => Failed(Some(failure))
      case Retry(failure) => ProviderEnd(c, provider, attempt + 1, Some(failure))
  }

  function Log(c: Call, provider: nat, n: nat): seq<Step>
    decreases n - provider
  {
    if provider >= n then []
    else if ProviderEnd(c, provider, 0, None).Answer? then ProviderLog(c, provider, 0)
    else ProviderLog(c, provider, 0) + Log(c, provider + 1, n)
  }

  function End(c: Call, provider: nat, n: nat, last: Option<Failure>): Outcome
    decreases n - provider
  {
    if provider >= n then Raised(if last.Some? then last.value else Unavailable)
    else match ProviderEnd(c, provider, 0, last)
      case Answer(output) => Generated(provider, output)
      case Failed(now) => End(c, provider + 1, n, now)
  }

  lemma Regroup(a: seq<Step>, b: seq<Step>, c: seq<Step>, d: seq<Step>)
    ensures a + b + c + d == a + (b + c + d)
  {
  }

  /** No pause after the last attempt, nor one of no length. */
  method RetryDelay(c: Call, p: nat, attempt: nat) returns (slept: seq<Step>)
    ensures slept == Pause(c, p, attempt)
  {
    if attempt + 1 >= c.maxAttempts {
      return [];
    }
    BackoffIsPower(c, attempt);
    var delay := c.base * Power(attempt) as real;
    assert delay == Backoff(c, attempt);
    slept := if delay > 0.0 then [Sleep(p, attempt, delay)] else [];
  }

  /** The attempts with one provider. */
  method AskProvider(c: Call, p: nat, carried: Option<Failure>) returns (end: Ending, log: seq<Step>)
    ensures end == ProviderEnd(c, p, 0, carried) && log == ProviderLog(c, p, 0)
  {
    log := [];
    var lastError := carried;
    for attempt := 0 to c.maxAttempts
      invariant log + ProviderLog(c, p, attempt) == ProviderLog(c, p, 0)
      invariant ProviderEnd(c, p, attempt, lastError) == ProviderEnd(c, p, 0, carried)
    {
      ghost var entry, rest := log, ProviderLog(c, p, attempt + 1);
      log := log + [Request(p, attempt)];
      match Judge(c.reply(p, attempt)) {
        case Done(output) =>
          return Answer(output), log;
        case GiveUp(failure) =>
          return Failed(Some(failure)), log;
        case Retry(failure) =>
          lastError := Some(failure);
          var pause := RetryDelay(c, p, attempt);
          log := log + pause;
          Regroup(entry, [Request(p, attempt)], pause, rest);
      }
    }
    end := Failed(lastError);
  }

  /** Tries the providers in turn; the last failure is raised if none answers. */
  method Generate(c: Call, providers: nat) returns (outcome: Outcome, log: seq<Step>)
    ensures providers == 0 ==> outcome == NotConfigured && log == []
    ensures providers > 0 ==> outcome == End(c, 0, providers, None) && log == Log(c, 0, providers)
  {
    log := [];
    if providers == 0 {
      return NotConfigured, log;
    }
    var lastError: Option<Failure> := None;
    for p := 0 to providers
      invariant log + Log(c, p, providers) == Log(c, 0, providers)
      invariant End(c, p, providers, lastError) == End(c, 0, providers, None)
    {
      EndIgnoresCarried(c, p, 0, lastError, None);
      ghost var before, rest := log, Log(c, p + 1, providers);
      var end, steps := AskProvider(c, p, lastError);
      log := log + steps;
      match end {
        case Answer(output) =>
          return Generated(p, output), log;
        case Failed(last) =>
          lastError := last;
      }
      Regroup(before, steps, [], rest);
      assert steps + [] == steps;
    }
    outcome := Raised(if lastError.Some? then lastError.value else Unavailable);
  }

  /** The failure carried over from an earlier provider does not change whether this one answers. */
  lemma {:induction false} EndIgnoresCarried(c: Call, p: nat, attempt: nat, a: Option<Failure>, b: Option<Failure>)
    ensures var x, y := ProviderEnd(c, p, attempt, a), ProviderEnd(c, p, attempt, b);
      (x.Answer? || y.Answer?) ==> x == y
    decreases c.maxAttempts - attempt
  {
    if attempt < c.maxAttempts && c.Verdict(p, attempt).Retry? {
      EndIgnoresCarried(c, p, attempt + 1, a, b);
    }
  }

  // ----- Laws -----

  /** `Log` and `End` of one provider: which attempts it gets, and whether it answers. */
  lemma {:induction false} ProviderSends(c: Call, p: nat, attempt: nat, q: nat, a: nat)
    requires forall b: nat :: b < attempt ==> c.Verdict(p, b).Retry?
    ensures Request(q, a) in ProviderLog(c, p, attempt) <==> q == p && attempt <= a && Tried(c, p, a)
    decreases c.maxAttempts - attempt
  {
    if attempt < c.maxAttempts {
      if c.Verdict(p, attempt).Retry? {
        ProviderSends(c, p, attempt + 1, q, a);
      }
      var rest := ProviderLog(c, p, attempt + 1);
      assert Request(q, a) !in Pause(c, p, attempt);
      assert a == attempt ==> Tried(c, p, a);
    }
  }

  lemma {:induction false} ProviderAnswers(c: Call, p: nat, attempt: nat, last: Option<Failure>)
    requires forall b: nat :: b < attempt ==> c.Verdict(p, b).Retry?
    ensures ProviderEnd(c, p, attempt, last).Answer? <==> Answers(c, p)
    ensures forall output :: ProviderEnd(c, p, attempt, last) == Answer(output)
                        ==> exists a: nat :: AnsweredAt(c, p, a) && c.Verdict(p, a) == Done(output)
    decreases c.maxAttempts - attempt
  {
    if attempt < c.maxAttempts {
      if c.Verdict(p, attempt).Retry? {
        ProviderAnswers(c, p, attempt + 1, match c.Verdict(p, attempt) case Retry(f) => Some(f));
      } else if c.Verdict(p, attempt).Done? {
        assert AnsweredAt(c, p, attempt);
      }
    }
  }

  /** A request is sent exactly if no earlier provider answers and every earlier attempt asked for a retry. */
  lemma {:induction false} Sent(c: Call, first: nat, n: nat, p: nat, a: nat)
    ensures Request(p, a) in Log(c, first, n) <==> first <= p < n && Tried(c, p, a) && NoneBefore(c, first, p)
    decreases n - first
  {
    if first < n {
      ProviderSends(c, first, 0, p, a);
      ProviderAnswers(c, first, 0, None);
      Sent(c, first + 1, n, p, a);
      assert NoneBefore(c, first, p) <==> first >= p || (!Answers(c, first) && NoneBefore(c, first + 1, p));
    }
  }

  /** The answer returned is that of the first provider that answers, and there is one unless all are given up. */
  lemma {:induction false} FirstAnswer(c: Call, first: nat, n: nat, last: Option<Failure>)
    ensures var end := End(c, first, n, last);
      && !end.NotConfigured?
      && (end.Raised? <==> NoneBefore(c, first, n))
      && (end.Generated? ==>
            && first <= end.provider < n && NoneBefore(c, first, end.provider)
            && exists a: nat :: AnsweredAt(c, end.provider, a) && c.Verdict(end.provider, a) == Done(end.output))
    decreases n - first
  {
    if first < n {
      ProviderAnswers(c, first, 0, last);
      match ProviderEnd(c, first, 0, last) {
        case Answer(_) =>
        case Failed(now) =>
          FirstAnswer(c, first + 1, n, now);
      }
    }
  }

  // The order of the steps.

  lemma {:induction false} ProviderOrderly(c: Call, p: nat, attempt: nat)
    requires attempt < c.maxAttempts
    ensures var log := ProviderLog(c, p, attempt);
      && log != [] && log[0] == Request(p, attempt)
      && (forall i :: 0 <= i < |log| - 1 ==> Follows(c, log[i], log[i + 1]))
      && var last := log[|log| - 1];
         && last.Request? && last.provider == p
         && (c.Verdict(p, last.attempt).Retry? ==> last.attempt + 1 == c.maxAttempts)
         && (c.Verdict(p, last.attempt).Done? <==> ProviderEnd(c, p, attempt, None).Answer?)
    decreases c.maxAttempts - attempt
  {
    if c.Verdict(p, attempt).Retry? && attempt + 1 < c.maxAttempts {
      ProviderOrderly(c, p, attempt + 1);
      EndIgnoresCarried(c, p, attempt + 1, None, match c.Verdict(p, attempt) case Retry(f) => Some(f));
      var rest := ProviderLog(c, p, attempt + 1);
      var head := [Request(p, attempt)] + Pause(c, p, attempt);
      assert ProviderLog(c, p, attempt) == head + rest;
      assert Follows(c, head[|head| - 1], rest[0]);
    } else if c.Verdict(p, attempt).Retry? {
      assert ProviderLog(c, p, attempt + 1) == [] && Pause(c, p, attempt) == [];
    }
  }

  /**
   Every pause stands between two attempts with one provider, the second the next after the first, and lasts
   base * 2^attempt. A provider is turned to only after its predecessor gave up or used all its attempts.
   */
  lemma {:induction false} InOrder(c: Call, first: nat, n: nat)
    ensures Orderly(c, first, Log(c, first, n))
    decreases n - first
  {
    if first < n && c.maxAttempts > 0 {
      ProviderOrderly(c, first, 0);
      if !ProviderEnd(c, first, 0, None).Answer? {
        InOrder(c, first + 1, n);
        var one, rest := ProviderLog(c, first, 0), Log(c, first + 1, n);
        if rest != [] {
          assert Follows(c, one[|one| - 1], rest[0]);
        }
      }
    } else if first < n {
      assert ProviderLog(c, first, 0) == [];
      EmptyWithoutAttempts(c, first, n);
    }
  }

  lemma {:induction false} EmptyWithoutAttempts(c: Call, first: nat, n: nat)
    requires c.maxAttempts == 0
    ensures Log(c, first, n) == []
    decreases n - first
  {
    if first < n {
      EmptyWithoutAttempts(c, first + 1, n);
    }
  }

  // Bounds.

  lemma {:induction false} Add(a: seq<Step>, b: seq<Step>)
    ensures Requests(a + b) == Requests(a) + Requests(b) && Slept(a + b) == Slept(a) + Slept(b)
  {
    if a == [] {
      assert a + b == b;
    } else {
      Add(a[1..], b);
      assert (a + b)[1..] == a[1..] + b;
    }
  }

  /** From an attempt on, a provider costs at most the attempts left, and base * (2^(m-1) - 2^attempt) of pauses. */
  lemma {:induction false} ProviderCost(c: Call, p: nat, attempt: nat)
    requires attempt < c.maxAttempts && c.base >= 0.0
    ensures var log := ProviderLog(c, p, attempt);
      && Requests(log) <= c.maxAttempts - attempt
      && Slept(log) <= Backoff(c, c.maxAttempts - 1) - Backoff(c, attempt)
    ensures var log := ProviderLog(c, p, attempt);
      (forall a: nat :: attempt <= a < c.maxAttempts ==> c.Verdict(p, a).Retry?) ==>
        && Requests(log) == c.maxAttempts - attempt
        && Slept(log) == Backoff(c, c.maxAttempts - 1) - Backoff(c, attempt)
    decreases c.maxAttempts - attempt
  {
    BackoffGrows(c, attempt, c.maxAttempts - 1);
    var one := [Request(p, attempt)];
    assert Requests(one) == 1 && Slept(one) == 0.0 by {
      assert one[1..] == [];
    }
    if c.Verdict(p, attempt).Retry? {
      var pause, rest := Pause(c, p, attempt), ProviderLog(c, p, attempt + 1);
      Add(one + pause, rest);
      Add(one, pause);
      assert pause == [] || pause[1..] == [];
      if attempt + 1 < c.maxAttempts {
        ProviderCost(c, p, attempt + 1);
        assert Slept(pause) == Backoff(c, attempt);
      }
    }
  }

  lemma {:induction false} BackoffGrows(c: Call, a: nat, b: nat)
    requires a <= b && c.base >= 0.0
    ensures 0.0 <= Backoff(c, a) <= Backoff(c, b)
    decreases b, b - a
  {
    if a < b {
      BackoffGrows(c, a, b - 1);
    } else if a > 0 {
      BackoffGrows(c, a - 1, a - 1);
    }
  }

  /** The longest a provider keeps the call waiting. */
  function Longest(c: Call): real
    requires c.maxAttempts >= 1
  {
    Backoff(c, c.maxAttempts - 1) - Backoff(c, 0)
  }

  lemma LongestIs(c: Call)
    requires c.maxAttempts >= 1
    ensures Longest(c) == c.base * (Power(c.maxAttempts - 1) - 1) as real
  {
    BackoffIsPower(c, c.maxAttempts - 1);
    Less(c.base, Power(c.maxAttempts - 1));
  }

  lemma Less(x: real, n: int)
    ensures x * (n - 1) as real == x * n as real - x
  {
    assert (n - 1) as real == n as real - 1.0;
  }

  lemma ProviderBound(c: Call, p: nat)
    requires c.maxAttempts >= 1 && c.base >= 0.0
    ensures Requests(ProviderLog(c, p, 0)) <= c.maxAttempts && Slept(ProviderLog(c, p, 0)) <= Longest(c)
    ensures (forall a: nat :: c.Verdict(p, a).Retry?) ==>
      Requests(ProviderLog(c, p, 0)) == c.maxAttempts && Slept(ProviderLog(c, p, 0)) == Longest(c)
    ensures Longest(c) >= 0.0
  {
    ProviderCost(c, p, 0);
    BackoffGrows(c, 0, c.maxAttempts - 1);
  }

  /** The sum of `k` copies. */
  function Times(k: nat, x: real): real {
    if k == 0 then 0.0 else x + Times(k - 1, x)
  }

  lemma {:induction false} TimesIs(k: nat, x: real)
    ensures Times(k, x) == k as real * x
  {
    if k > 0 {
      TimesIs(k - 1, x);
      assert (k - 1) as real * x == k as real * x - x;
    }
  }

  function Sum(k: nat, m: nat): nat {
    if k == 0 then 0 else m + Sum(k - 1, m)
  }

  lemma {:induction false} SumIs(k: nat, m: nat)
    ensures Sum(k, m) == k * m
  {
    if k > 0 {
      SumIs(k - 1, m);
      assert (k - 1) * m == k * m - m;
    }
  }

  lemma {:induction false} TimesGrows(k: nat, x: real)
    requires x >= 0.0
    ensures Times(k, x) >= 0.0
  {
    if k > 0 {
      TimesGrows(k - 1, x);
    }
  }

  lemma {:induction false} BoundsFrom(c: Call, first: nat, n: nat)
    requires first <= n && c.maxAttempts >= 1 && c.base >= 0.0
    ensures Requests(Log(c, first, n)) <= Sum(n - first, c.maxAttempts)
    ensures Slept(Log(c, first, n)) <= Times(n - first, Longest(c))
    ensures (forall p: nat, a: nat :: c.Verdict(p, a).Retry?) ==>
      && Requests(Log(c, first, n)) == Sum(n - first, c.maxAttempts)
      && Slept(Log(c, first, n)) == Times(n - first, Longest(c))
    decreases n - first
  {
    if first < n {
      ProviderBound(c, first);
      ProviderAnswers(c, first, 0, None);
      Add(ProviderLog(c, first, 0), Log(c, first + 1, n));
      BoundsFrom(c, first + 1, n);
      TimesGrows(n - first - 1, Longest(c));
      if forall p: nat, a: nat :: c.Verdict(p, a).Retry? {
        assert forall a: nat :: !AnsweredAt(c, first, a);
      }
    }
  }

  /** At most n * m requests are sent, and the pauses add up to at most n * base * (2^(m-1) - 1). */
  lemma Bounds(c: Call, n: nat)
    requires c.maxAttempts >= 1 && c.base >= 0.0
    ensures Requests(Log(c, 0, n)) <= n * c.maxAttempts
    ensures Slept(Log(c, 0, n)) <= n as real * (c.base * (Power(c.maxAttempts - 1) - 1) as real)
  {
    hide Log, Slept, Requests, Power;
    BoundsFrom(c, 0, n);
    SumIs(n, c.maxAttempts);
    TimesIs(n, Longest(c));
    LongestIs(c);
  }

  /** The bounds are reached when every request asks for a retry. */
  lemma BoundsAreTight(c: Call, n: nat)
    requires c.maxAttempts >= 1 && c.base >= 0.0
    requires forall p: nat, a: nat :: c.Verdict(p, a).Retry?
    ensures Requests(Log(c, 0, n)) == n * c.maxAttempts
    ensures Slept(Log(c, 0, n)) == n as real * (c.base * (Power(c.maxAttempts - 1) - 1) as real)
  {
    BoundsFrom(c, 0, n);
    SumIs(n, c.maxAttempts);
    TimesIs(n, Longest(c));
    LongestIs(c);
  }

  // The failure that is raised.

  /** If nothing answers, the failure raised is that of the last request sent. */
  lemma {:induction false} LastFailureRaised(c: Call, first: nat, n: nat, last: Option<Failure>)
    requires c.maxAttempts >= 1 && first < n && End(c, first, n, last).Raised?
    ensures var log := Log(c, first, n);
      && log != [] && log[|log| - 1].Request?
      && var verdict := c.Verdict(log[|log| - 1].provider, log[|log| - 1].attempt);
         && !verdict.Done? && End(c, first, n, last).failure == verdict.failure
    decreases n - first
  {
    ProviderFails(c, first, 0, last);
    EndIgnoresCarried(c, first, 0, None, last);
    if first + 1 < n {
      LastFailureRaised(c, first + 1, n, ProviderEnd(c, first, 0, last).last);
    } else {
      assert Log(c, first + 1, n) == [];
    }
  }

  lemma {:induction false} ProviderFails(c: Call, p: nat, attempt: nat, last: Option<Failure>)
    requires attempt < c.maxAttempts && ProviderEnd(c, p, attempt, last).Failed?
    ensures var log := ProviderLog(c, p, attempt);
      && log != [] && log[|log| - 1].Request? && log[|log| - 1].provider == p
      && var verdict := c.Verdict(p, log[|log| - 1].attempt);
         !verdict.Done? && ProviderEnd(c, p, attempt, last) == Failed(Some(verdict.failure))
    decreases c.maxAttempts - attempt
  {
    if c.Verdict(p, attempt).Retry? {
      if attempt + 1 < c.maxAttempts {
        ProviderFails(c, p, attempt + 1, match c.Verdict(p, attempt) case Retry(f) => Some(f));
      } else {
        assert ProviderLog(c, p, attempt + 1) == [] && Pause(c, p, attempt) == [];
      }
    }
  }

  // ----- The schedule by the replies themselves -----

  /** The reply asks for another attempt: no response came, or an error response whose status is worth a retry. */
  predicate AsksAgain(reply: Reply) {
    match reply
    case Timeout => true
    case HttpError => true
    case Response(status, body) =>
      body != TooLarge && (status == 408 || status == 409 || status == 425 || status == 429 || 500 <= status)
  }

  /** The reply carries an answer. */
  predicate IsAnswer(reply: Reply, output: string) {
    reply.Response? && reply.status < 400 && reply.body == Usable(output)
  }

  /** What each reply comes to, and what is raised if it is the last. */
  lemma RepliesMean(reply: Reply)
    ensures Judge(reply).Retry? <==> AsksAgain(reply)
    ensures forall output :: Judge(reply) == Done(output) <==> IsAnswer(reply, output)
    ensures !Judge(reply).Done? ==>
      Judge(reply).failure == if reply.Timeout? then TimedOut else if reply.HttpError? then Unavailable else BadResponse
  {
  }

  /** The attempt gets this answer, after attempts that all asked for another. */
  predicate AnswersWith(c: Call, provider: nat, a: nat, output: string) {
    && a < c.maxAttempts && IsAnswer(c.reply(provider, a), output)
    && forall b: nat :: b < a ==> AsksAgain(c.reply(provider, b))
  }

  /** The provider answers at some attempt. */
  ghost predicate Responds(c: Call, provider: nat) {
    exists a: nat, output :: AnswersWith(c, provider, a, output)
  }

  lemma RespondsIsAnswers(c: Call, provider: nat)
    ensures Responds(c, provider) <==> Answers(c, provider)
  {
    hide AsksAgain, IsAnswer;
    forall a: nat
      ensures c.Verdict(provider, a).Retry? <==> AsksAgain(c.reply(provider, a))
      ensures c.Verdict(provider, a).Done? <==> exists output :: IsAnswer(c.reply(provider, a), output)
    {
      RepliesMean(c.reply(provider, a));
      if c.Verdict(provider, a).Done? {
        assert IsAnswer(c.reply(provider, a), c.Verdict(provider, a).output);
      }
    }
    if a: nat :| AnsweredAt(c, provider, a) {
      var output :| IsAnswer(c.reply(provider, a), output);
      assert AnswersWith(c, provider, a, output);
    }
    if a: nat, output :| AnswersWith(c, provider, a, output) {
      assert AnsweredAt(c, provider, a);
    }
  }

  /** A request is sent exactly if no provider before answers and the replies before it all ask for another attempt. */
  lemma SentByReplies(c: Call, n: nat, p: nat, a: nat)
    ensures Request(p, a) in Log(c, 0, n) <==>
      && p < n && a < c.maxAttempts
      && (forall b: nat :: b < a ==> AsksAgain(c.reply(p, b)))
      && (forall q: nat :: q < p ==> !Responds(c, q))
  {
    hide AsksAgain, Responds, Answers;
    Sent(c, 0, n, p, a);
    forall b: nat
      ensures c.Verdict(p, b).Retry? <==> AsksAgain(c.reply(p, b))
    {
      RepliesMean(c.reply(p, b));
    }
    forall q: nat
      ensures Responds(c, q) <==> Answers(c, q)
    {
      RespondsIsAnswers(c, q);
    }
  }
}
