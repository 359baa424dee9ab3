/** The chat request loop: retries, key rotation and the fallback model. */
module GroqChat {
  import opened Wrappers

  const FALLBACK_LONG_WAIT_S: real := 60.0

  // How the API answers one call. Runtime stands for a RuntimeError out of the call, and says
  // whether its text reads like a local budget refusal.
  datatype Reply =
    | Answer
    | RateLimited(retryAfter: Option<real>)
    | Runtime(readsAsBudget: bool)
    | ConnectionError
    | StatusError

  datatype Error = RateLimitError | RuntimeError | APIConnectionError | APIStatusError

  datatype Verdict = Text | Empty | Raised(error: Error)

  // An empty fallback name means there is no fallback model.
  datatype Config = Config(maxRetries: int, fallback: string)

  // Attempt n of the whole run: would the local quota refuse it, and how does the API answer it.
  datatype Env = Env(refuses: nat -> bool, server: nat -> Reply)

  // One API call: the number of keys then left in the pool (the first of them is used), and the model.
  datatype Call = Call(left: nat, model: string, reply: Reply)

  datatype Report = Report(calls: seq<Call>, left: nat, verdict: Verdict, next: nat)

  function After(calls: seq<Call>, r: Report): Report {
    r.(calls := calls + r.calls)
  }

  predicate TryFallback(c: Config, model: string, allow: bool) {
    allow && c.fallback != "" && model != c.fallback
  }

  predicate LongWait(reply: Reply) {
    reply.RateLimited? && reply.retryAfter.Some? && reply.retryAfter.value >= FALLBACK_LONG_WAIT_S
  }

  // What happens after attempt number `attempt` at one stage.
  datatype Step = Rotate | Switch | Again | Stop(verdict: Verdict)

  function OnRefusal(c: Config, model: string, allow: bool): Step {
    if TryFallback(c, model, allow) then Switch else Stop(Raised(RuntimeError))
  }

  function OnReply(c: Config, left: nat, model: string, allow: bool, attempt: nat, reply: Reply): Step {
    match reply
    case Answer => Stop(Text)
    case RateLimited(_) =>
      if LongWait(reply) && left > 1 then Rotate
      else if LongWait(reply) && TryFallback(c, model, allow) then Switch
      else if attempt < c.maxRetries then Again
      else if TryFallback(c, model, allow) then Switch
      else Stop(Raised(RateLimitError))
    case Runtime(readsAsBudget) =>
      if readsAsBudget then OnRefusal(c, model, allow) else Stop(Raised(RuntimeError))
    case ConnectionError => if attempt < c.maxRetries then Again else Stop(Raised(APIConnectionError))
    case StatusError => Stop(Raised(APIStatusError))
  }

  predicate Refused(env: Env, allow: bool, n: nat) {
    allow && env.refuses(n)
  }

  // The calls attempt n makes: none if it is refused locally.
  function CallsAt(env: Env, left: nat, model: string, allow: bool, n: nat): seq<Call> {
    if Refused(env, allow, n) then [] else [Call(left, model, env.server(n))]
  }

  function StepAt(c: Config, env: Env, left: nat, model: string, allow: bool, attempt: nat, n: nat): Step {
    if Refused(env, allow, n) then OnRefusal(c, model, allow)
    else OnReply(c, left, model, allow, attempt, env.server(n))
  }

  // The run from a given attempt on. A fallback run is not subject to the local quota.
  function Run(c: Config, env: Env, left: nat, model: string, allow: bool, attempt: nat, n: nat): Report
    requires attempt >= 1
    decreases left, allow, if attempt > c.maxRetries then 0 else c.maxRetries + 1 - attempt
  {
    if attempt > c.maxRetries then Report([], left, Empty, n)
    else
      var calls := CallsAt(env, left, model, allow, n);
      match StepAt(c, env, left, model, allow, attempt, n)
      case Rotate => After(calls, Run(c, env, left - 1, model, allow, 1, n + 1))
      case Switch => After(calls, Run(c, env, left, c.fallback, false, 1, n + 1))
      case Again => After(calls, Run(c, env, left, model, allow, attempt + 1, n + 1))
      case Stop(verdict) => Report(calls, left, verdict, n + 1)
  }

  // ---------------------------------------------------------------- the client

  function Answers(calls: seq<Call>): nat {
    if calls == [] then 0 else (if calls[0].reply.Answer? then 1 else 0) + Answers(calls[1..])
  }

  // Rate-limit and connection failures are counted as retries.
  function Troubles(calls: seq<Call>): nat {
    if calls == [] then 0
    else (if calls[0].reply.RateLimited? || calls[0].reply.ConnectionError? then 1 else 0) + Troubles(calls[1..])
  }

  lemma {:induction false} CountsAdd(a: seq<Call>, b: seq<Call>)
    ensures Answers(a + b) == Answers(a) + Answers(b) && Troubles(a + b) == Troubles(a) + Troubles(b)
  {
    if a == [] {
      assert a + b == b;
    } else {
      assert (a + b)[1..] == a[1..] + b;
      CountsAdd(a[1..], b);
    }
  }

  class Client {
    const config: Config
    const env: Env
    var keys: seq<string>
    var totalRequests: nat
    var totalRetries: nat
    var attempts: nat
    ghost var calls: seq<Call>

    constructor (config: Config, env: Env, keys: seq<string>)
      ensures this.config == config && this.env == env && this.keys == keys
      ensures totalRequests == 0 && totalRetries == 0 && attempts == 0 && calls == []
    {
      this.config, this.env, this.keys := config, env, keys;
      totalRequests, totalRetries, attempts, calls := 0, 0, 0, [];
    }

    // Drops the exhausted key, unless it is the only one: the pool is never emptied.
    method RotateKey() returns (rotated: bool)
      modifies this`keys
      ensures rotated <==> |old(keys)| > 1
      ensures keys == if rotated then old(keys)[1..] else old(keys)
      ensures old(keys) != [] ==> keys != []
    {
      rotated := |keys| > 1;
      if rotated {
        keys := keys[1..];
      }
    }

    // The pre-check and the API call of one attempt, with its bookkeeping; None if refused locally.
    method Attempt(model: string, allow: bool) returns (reply: Option<Reply>)
      modifies this`totalRequests, this`totalRetries, this`attempts, this`calls
      ensures attempts == old(attempts) + 1
      ensures reply == if Refused(env, allow, old(attempts)) then None else Some(env.server(old(attempts)))
      ensures var made := CallsAt(env, |keys|, model, allow, old(attempts));
        && calls == old(calls) + made
        && totalRequests == old(totalRequests) + Answers(made)
        && totalRetries == old(totalRetries) + Troubles(made)
    {
      hide Answers, Troubles;
      CountsOf(CallsAt(env, |keys|, model, allow, attempts));
      var n := attempts;
      attempts := attempts + 1;
      if Refused(env, allow, n) {
        return None;
      }
      var r := env.server(n);
      calls := calls + [Call(|keys|, model, r)];
      match r {
        case Answer => totalRequests := totalRequests + 1;
        case RateLimited(_) => totalRetries := totalRetries + 1;
        case ConnectionError => totalRetries := totalRetries + 1;
        case _ =>
      }
      return Some(r);
    }

    // The run from here is Run; used-up keys leave the pool from the front.
    method Chat(model: string, allow: bool) returns (verdict: Verdict)
      modifies this`keys, this`totalRequests, this`totalRetries, this`attempts, this`calls
      decreases |keys|, allow
      ensures var r := Run(config, env, |old(keys)|, model, allow, 1, old(attempts));
        && verdict == r.verdict && attempts == r.next && calls == old(calls) + r.calls
        && r.left <= |old(keys)| && keys == old(keys)[|old(keys)| - r.left..]
        && totalRequests == old(totalRequests) + Answers(r.calls)
        && totalRetries == old(totalRetries) + Troubles(r.calls)
    {
      hide Run, Answers, Troubles, CallsAt, After;
      var attempt := 1;
      ghost var whole := Run(config, env, |keys|, model, allow, 1, attempts);
      ghost var done: seq<Call> := [];
      NoCounts();
      AfterNothing(whole);
      while attempt <= config.maxRetries
        invariant attempt >= 1 && keys == old(keys)
        invariant whole == After(done, Run(config, env, |keys|, model, allow, attempt, attempts))
        invariant calls == old(calls) + done
        invariant totalRequests == old(totalRequests) + Answers(done)
        invariant totalRetries == old(totalRetries) + Troubles(done)
        decreases config.maxRetries - attempt
      {
        RunStep(config, env, |keys|, model, allow, attempt, attempts);
        ghost var made := CallsAt(env, |keys|, model, allow, attempts);
        CountsAdd(done, made);
        var reply := Attempt(model, allow);
        var step := OnRefusal(config, model, allow);
        if reply.Some? {
          step := OnReply(config, |keys|, model, allow, attempt, reply.value);
        }
        match step {
          case Rotate =>
            Joined(done, made, Run(config, env, |keys| - 1, model, allow, 1, attempts));
            var rotated := RotateKey();
            verdict := Chat(model, allow);
            return;
          case Switch =>
            Joined(done, made, Run(config, env, |keys|, config.fallback, false, 1, attempts));
            verdict := Chat(config.fallback, false);
            return;
          case Stop(last) =>
            AfterLast(done, made, |keys|, last, attempts);
            return last;
          case Again =>
            Joined(done, made, Run(config, env, |keys|, model, allow, attempt + 1, attempts));
            done := done + made;
            attempt := attempt + 1;
        }
      }
      AfterLast(done, [], |keys|, Empty, attempts);
      assert done + [] == done;
      RunOut(config, env, |keys|, model, allow, attempt, attempts);
      verdict := Empty;
    }
  }

  lemma AfterNothing(r: Report)
    ensures After([], r) == r
  {
  }

  lemma AfterLast(done: seq<Call>, made: seq<Call>, left: nat, verdict: Verdict, next: nat)
    ensures After(done, Report(made, left, verdict, next)) == Report(done + made, left, verdict, next)
  {
  }

  lemma NoCounts()
    ensures Answers([]) == 0 && Troubles([]) == 0
  {
  }

  lemma CountsOf(calls: seq<Call>)
    requires |calls| <= 1
    ensures Answers(calls) == if |calls| == 1 && calls[0].reply.Answer? then 1 else 0
    ensures Troubles(calls) ==
      if |calls| == 1 && (calls[0].reply.RateLimited? || calls[0].reply.ConnectionError?) then 1 else 0
  {
  }

  lemma Joined(done: seq<Call>, made: seq<Call>, r: Report)
    ensures After(done, After(made, r)) == After(done + made, r)
    ensures After(done + made, r) == Report(done + made + r.calls, r.left, r.verdict, r.next)
    ensures Answers(After(done + made, r).calls) == Answers(done + made) + Answers(r.calls)
    ensures Troubles(After(done + made, r).calls) == Troubles(done + made) + Troubles(r.calls)
  {
    hide Answers, Troubles;
    CountsAdd(done + made, r.calls);
    assert done + (made + r.calls) == done + made + r.calls;
  }

  lemma RunOut(c: Config, env: Env, left: nat, model: string, allow: bool, attempt: nat, n: nat)
    requires attempt >= 1 && attempt > c.maxRetries
    ensures Run(c, env, left, model, allow, attempt, n) == Report([], left, Empty, n)
  {
  }

  lemma RunStep(c: Config, env: Env, left: nat, model: string, allow: bool, attempt: nat, n: nat)
    requires 1 <= attempt <= c.maxRetries
    ensures var r := Run(c, env, left, model, allow, attempt, n);
      var calls := CallsAt(env, left, model, allow, n);
      match StepAt(c, env, left, model, allow, attempt, n)
      case Rotate => left > 1 && r == After(calls, Run(c, env, left - 1, model, allow, 1, n + 1))
      case Switch =>
        TryFallback(c, model, allow) && r == After(calls, Run(c, env, left, c.fallback, false, 1, n + 1))
      case Again =>
        attempt < c.maxRetries && r == After(calls, Run(c, env, left, model, allow, attempt + 1, n + 1))
      case Stop(verdict) => r == Report(calls, left, verdict, n + 1)
  {
  }

  // ---------------------------------------------------------------- cost

  function Spare(left: nat): nat {
    if left > 1 then left - 1 else 0
  }

  // Key rotations and fallback switches still possible.
  function StagesLeft(c: Config, left: nat, model: string, allow: bool): nat {
    Spare(left) + if TryFallback(c, model, allow) then 1 else 0
  }

  function Limit(c: Config, left: nat, model: string, allow: bool, attempt: nat): int {
    if attempt > c.maxRetries then 0
    else c.maxRetries + 1 - attempt + c.maxRetries * StagesLeft(c, left, model, allow)
  }

  lemma {:induction false} CallsWithin(c: Config, env: Env, left: nat, model: string, allow: bool, attempt: nat, n: nat)
    requires attempt >= 1
    ensures |Run(c, env, left, model, allow, attempt, n).calls| <= Limit(c, left, model, allow, attempt)
    decreases left, allow, if attempt > c.maxRetries then 0 else c.maxRetries + 1 - attempt
  {
    hide Run, StepAt, Limit;
    if attempt > c.maxRetries {
      RunOut(c, env, left, model, allow, attempt, n);
      LimitOut(c, left, model, allow, attempt);
    } else {
      RunStep(c, env, left, model, allow, attempt, n);
      LimitStep(c, left, model, allow, attempt);
      match StepAt(c, env, left, model, allow, attempt, n)
      case Rotate => CallsWithin(c, env, left - 1, model, allow, 1, n + 1);
      case Switch => CallsWithin(c, env, left, c.fallback, false, 1, n + 1);
      case Again => CallsWithin(c, env, left, model, allow, attempt + 1, n + 1);
      case Stop(_) =>
    }
  }

  lemma LimitOut(c: Config, left: nat, model: string, allow: bool, attempt: nat)
    requires attempt > c.maxRetries
    ensures Limit(c, left, model, allow, attempt) == 0
  {
  }

  lemma LimitStep(c: Config, left: nat, model: string, allow: bool, attempt: nat)
    requires 1 <= attempt <= c.maxRetries
    ensures 1 <= Limit(c, left, model, allow, attempt)
    ensures left > 1 ==> 1 + Limit(c, left - 1, model, allow, 1) <= Limit(c, left, model, allow, attempt)
    ensures TryFallback(c, model, allow) ==>
      1 + Limit(c, left, c.fallback, false, 1) <= Limit(c, left, model, allow, attempt)
    ensures attempt < c.maxRetries ==>
      1 + Limit(c, left, model, allow, attempt + 1) == Limit(c, left, model, allow, attempt)
  {
    var r, s := c.maxRetries, StagesLeft(c, left, model, allow);
    if s > 0 {
      assert r * s == r * (s - 1) + r;
    }
  }

  // A whole chat makes at most maxRetries calls per key, plus maxRetries for the fallback model.
  lemma ChatCost(c: Config, env: Env, left: nat, model: string, allow: bool, n: nat)
    requires c.maxRetries >= 0
    ensures |Run(c, env, left, model, allow, 1, n).calls| <= c.maxRetries * (1 + StagesLeft(c, left, model, allow))
    ensures left >= 1 ==> |Run(c, env, left, model, allow, 1, n).calls| <= c.maxRetries * (left + 1)
  {
    hide Run;
    CallsWithin(c, env, left, model, allow, 1, n);
    var r, s := c.maxRetries, StagesLeft(c, left, model, allow);
    assert r * (1 + s) == r + r * s;
    if left >= 1 {
      Product(r, 1 + s, left + 1);
    }
  }

  lemma Product(r: nat, a: nat, b: nat)
    requires a <= b
    ensures r * a <= r * b
  {
  }

  // A server that answers every call with a long rate limit on the last attempt of each stage.
  function Worst(maxRetries: nat): nat -> Reply
    requires maxRetries > 0
  {
    n => RateLimited(if n % maxRetries == maxRetries - 1 then Some(FALLBACK_LONG_WAIT_S) else None)
  }

  // The bound cannot be improved: against that server it is used up to the last call.
  lemma {:induction false} CostIsReached(c: Config, env: Env, left: nat, model: string, allow: bool, attempt: nat, n: nat)
    requires 1 <= attempt <= c.maxRetries && n % c.maxRetries == attempt - 1
    requires env == Env(_ => false, Worst(c.maxRetries))
    ensures |Run(c, env, left, model, allow, attempt, n).calls| == Limit(c, left, model, allow, attempt)
    decreases left, allow, c.maxRetries + 1 - attempt
  {
    hide Run, Limit;
    RunStep(c, env, left, model, allow, attempt, n);
    LimitStepExact(c, left, model, allow, attempt);
    NextSlot(n, c.maxRetries, attempt);
    if attempt < c.maxRetries {
      CostIsReached(c, env, left, model, allow, attempt + 1, n + 1);
    } else if left > 1 {
      CostIsReached(c, env, left - 1, model, allow, 1, n + 1);
    } else if TryFallback(c, model, allow) {
      CostIsReached(c, env, left, c.fallback, false, 1, n + 1);
    }
  }

  lemma NextSlot(n: nat, r: int, attempt: nat)
    requires 1 <= attempt <= r && n % r == attempt - 1
    ensures (n + 1) % r == if attempt < r then attempt else 0
  {
    assert n == n / r * r + (attempt - 1);
    if attempt < r {
      Remainder(n + 1, r, n / r, attempt);
    } else {
      assert n + 1 == (n / r + 1) * r + 0;
      Remainder(n + 1, r, n / r + 1, 0);
    }
  }

  lemma Remainder(n: int, r: int, q: int, rest: int)
    requires r > 0 && n == q * r + rest && 0 <= rest < r
    ensures n % r == rest
  {
    var d := n / r - q;
    assert n == n / r * r + n % r;
    assert d * r == n / r * r - q * r;
    if d >= 1 {
      Product(r, 1, d);
    } else if d <= -1 {
      Product(r, 1, -d);
    }
  }

  lemma LimitStepExact(c: Config, left: nat, model: string, allow: bool, attempt: nat)
    requires 1 <= attempt <= c.maxRetries
    ensures attempt < c.maxRetries ==>
      1 + Limit(c, left, model, allow, attempt + 1) == Limit(c, left, model, allow, attempt)
    ensures attempt == c.maxRetries && left > 1 ==>
      1 + Limit(c, left - 1, model, allow, 1) == Limit(c, left, model, allow, attempt)
    ensures attempt == c.maxRetries && left <= 1 && TryFallback(c, model, allow) ==>
      1 + Limit(c, left, c.fallback, false, 1) == Limit(c, left, model, allow, attempt)
    ensures attempt == c.maxRetries && left <= 1 && !TryFallback(c, model, allow) ==>
      1 == Limit(c, left, model, allow, attempt)
  {
    var r, s := c.maxRetries, StagesLeft(c, left, model, allow);
    if s > 0 {
      assert r * s == r * (s - 1) + r;
    }
  }

  // ---------------------------------------------------------------- order of the stages

  // Keys are only ever dropped, and a switch to the fallback model is never undone.
  predicate Forward(c: Config, calls: seq<Call>) {
    forall i, j :: 0 <= i < j < |calls| ==>
      calls[j].left <= calls[i].left && (calls[j].model == calls[i].model || calls[j].model == c.fallback)
  }

  predicate From(c: Config, left: nat, model: string, allow: bool, calls: seq<Call>) {
    forall i :: 0 <= i < |calls| ==>
      && calls[i].left <= left
      && (calls[i].model == model || (TryFallback(c, model, allow) && calls[i].model == c.fallback))
  }

  lemma ForwardAfter(c: Config, left: nat, model: string, allow: bool, made: seq<Call>, rest: seq<Call>,
                     left': nat, model': string, allow': bool)
    requires |made| <= 1 && (made != [] ==> made[0].left == left && made[0].model == model)
    requires Forward(c, rest) && From(c, left', model', allow', rest)
    requires left' <= left
    requires (model' == model && allow' == allow) || (TryFallback(c, model, allow) && model' == c.fallback)
    ensures Forward(c, made + rest) && From(c, left, model, allow, made + rest)
  {
  }

  lemma {:induction false} StagesGoForward(c: Config, env: Env, left: nat, model: string, allow: bool, attempt: nat, n: nat)
    requires attempt >= 1
    ensures Forward(c, Run(c, env, left, model, allow, attempt, n).calls)
    ensures From(c, left, model, allow, Run(c, env, left, model, allow, attempt, n).calls)
    decreases left, allow, if attempt > c.maxRetries then 0 else c.maxRetries + 1 - attempt
  {
    hide Run, StepAt, Forward, From;
    if attempt > c.maxRetries {
      RunOut(c, env, left, model, allow, attempt, n);
      ForwardShort(c, left, model, allow, []);
    } else {
      RunStep(c, env, left, model, allow, attempt, n);
      var made := CallsAt(env, left, model, allow, n);
      match StepAt(c, env, left, model, allow, attempt, n)
      case Rotate =>
        StagesGoForward(c, env, left - 1, model, allow, 1, n + 1);
        ForwardAfter(c, left, model, allow, made, Run(c, env, left - 1, model, allow, 1, n + 1).calls,
          left - 1, model, allow);
      case Switch =>
        StagesGoForward(c, env, left, c.fallback, false, 1, n + 1);
        ForwardAfter(c, left, model, allow, made, Run(c, env, left, c.fallback, false, 1, n + 1).calls,
          left, c.fallback, false);
      case Again =>
        StagesGoForward(c, env, left, model, allow, attempt + 1, n + 1);
        ForwardAfter(c, left, model, allow, made, Run(c, env, left, model, allow, attempt + 1, n + 1).calls,
          left, model, allow);
      case Stop(_) => ForwardShort(c, left, model, allow, made);
    }
  }

  lemma ForwardShort(c: Config, left: nat, model: string, allow: bool, made: seq<Call>)
    requires |made| <= 1 && (made != [] ==> made[0].left == left && made[0].model == model)
    ensures Forward(c, made) && From(c, left, model, allow, made)
  {
  }

  // Calls made with one key and one model.
  function CallsOf(calls: seq<Call>, left: nat, model: string): nat {
    if calls == [] then 0
    else (if calls[0].left == left && calls[0].model == model then 1 else 0) + CallsOf(calls[1..], left, model)
  }

  lemma {:induction false} CallsOfAdd(a: seq<Call>, b: seq<Call>, left: nat, model: string)
    ensures CallsOf(a + b, left, model) == CallsOf(a, left, model) + CallsOf(b, left, model)
  {
    if a == [] {
      assert a + b == b;
    } else {
      assert (a + b)[1..] == a[1..] + b;
      CallsOfAdd(a[1..], b, left, model);
    }
  }

  lemma {:induction false} CallsOfNone(calls: seq<Call>, left: nat, model: string)
    requires forall i :: 0 <= i < |calls| ==> calls[i].left < left || calls[i].model != model
    ensures CallsOf(calls, left, model) == 0
  {
    if calls != [] {
      CallsOfNone(calls[1..], left, model);
    }
  }

  // Each key is used at most maxRetries times with each model; at the stage under way, at most as
  // often as attempts are left.
  lemma {:induction false} StageCost(c: Config, env: Env, left: nat, model: string, allow: bool, attempt: nat, n: nat,
                                     l: nat, m: string)
    requires 1 <= attempt <= c.maxRetries + 1
    ensures CallsOf(Run(c, env, left, model, allow, attempt, n).calls, l, m) <= c.maxRetries
    ensures CallsOf(Run(c, env, left, model, allow, attempt, n).calls, left, model) <= c.maxRetries + 1 - attempt
    decreases left, allow, c.maxRetries + 1 - attempt
  {
    hide Run, StepAt, CallsOf, Forward;
    if attempt > c.maxRetries {
      RunOut(c, env, left, model, allow, attempt, n);
      CallsOfNone([], l, m);
      CallsOfNone([], left, model);
    } else {
      RunStep(c, env, left, model, allow, attempt, n);
      var made := CallsAt(env, left, model, allow, n);
      CallsOfShort(made, l, m);
      CallsOfShort(made, left, model);
      match StepAt(c, env, left, model, allow, attempt, n)
      case Rotate =>
        var rest := Run(c, env, left - 1, model, allow, 1, n + 1).calls;
        StageCost(c, env, left - 1, model, allow, 1, n + 1, l, m);
        StagesGoForward(c, env, left - 1, model, allow, 1, n + 1);
        StageOver(c, made, rest, left, model, l, m);
      case Switch =>
        var rest := Run(c, env, left, c.fallback, false, 1, n + 1).calls;
        StageCost(c, env, left, c.fallback, false, 1, n + 1, l, m);
        StagesGoForward(c, env, left, c.fallback, false, 1, n + 1);
        StageOver(c, made, rest, left, model, l, m);
      case Again =>
        var rest := Run(c, env, left, model, allow, attempt + 1, n + 1).calls;
        StageCost(c, env, left, model, allow, attempt + 1, n + 1, l, m);
        CallsOfAdd(made, rest, l, m);
        CallsOfAdd(made, rest, left, model);
      case Stop(_) =>
    }
  }

  lemma CallsOfShort(made: seq<Call>, left: nat, model: string)
    requires |made| <= 1
    ensures CallsOf(made, left, model) == if made != [] && made[0].left == left && made[0].model == model then 1 else 0
  {
  }

  // Once a stage is left, its key and model are not used together again.
  lemma StageOver(c: Config, made: seq<Call>, rest: seq<Call>, left: nat, model: string, l: nat, m: string)
    requires |made| <= 1 && (made != [] ==> made[0].left == left && made[0].model == model)
    requires forall i :: 0 <= i < |rest| ==> rest[i].left < left || rest[i].model != model
    requires CallsOf(rest, l, m) <= c.maxRetries && 1 <= c.maxRetries
    ensures CallsOf(made + rest, l, m) <= c.maxRetries && CallsOf(made + rest, left, model) <= 1
  {
    CallsOfShort(made, l, m);
    CallsOfShort(made, left, model);
    CallsOfAdd(made, rest, l, m);
    CallsOfAdd(made, rest, left, model);
    CallsOfNone(rest, left, model);
  }

  // ---------------------------------------------------------------- outcomes

  // Text is returned exactly when some call was answered, and that call was the last one; an empty
  // reply without any call is returned exactly when there are no attempts at all.
  lemma {:induction false} AnswerEndsTheRun(c: Config, env: Env, left: nat, model: string, allow: bool, attempt: nat, n: nat)
    requires attempt >= 1 && (attempt == 1 || attempt <= c.maxRetries)
    ensures var r := Run(c, env, left, model, allow, attempt, n);
      && (r.verdict == Text <==> exists i :: 0 <= i < |r.calls| && r.calls[i].reply.Answer?)
      && (forall i :: 0 <= i < |r.calls| && r.calls[i].reply.Answer? ==> i == |r.calls| - 1)
      && (r.verdict == Empty <==> c.maxRetries <= 0)
    decreases left, allow, if attempt > c.maxRetries then 0 else c.maxRetries + 1 - attempt
  {
    hide Run;
    if attempt > c.maxRetries {
      RunOut(c, env, left, model, allow, attempt, n);
    } else {
      RunStep(c, env, left, model, allow, attempt, n);
      var made := CallsAt(env, left, model, allow, n);
      match StepAt(c, env, left, model, allow, attempt, n)
      case Rotate =>
        AnswerEndsTheRun(c, env, left - 1, model, allow, 1, n + 1);
        AnswerLater(made, Run(c, env, left - 1, model, allow, 1, n + 1).calls);
      case Switch =>
        AnswerEndsTheRun(c, env, left, c.fallback, false, 1, n + 1);
        AnswerLater(made, Run(c, env, left, c.fallback, false, 1, n + 1).calls);
      case Again =>
        AnswerEndsTheRun(c, env, left, model, allow, attempt + 1, n + 1);
        AnswerLater(made, Run(c, env, left, model, allow, attempt + 1, n + 1).calls);
      case Stop(_) =>
        assert made != [] ==> made[0].reply == env.server(n);
    }
  }

  lemma AnswerLater(made: seq<Call>, rest: seq<Call>)
    requires |made| <= 1 && (made != [] ==> !made[0].reply.Answer?)
    ensures (exists i :: 0 <= i < |made + rest| && (made + rest)[i].reply.Answer?) <==>
            (exists i :: 0 <= i < |rest| && rest[i].reply.Answer?)
  {
    forall i | 0 <= i < |rest| ensures (made + rest)[|made| + i] == rest[i] {
    }
  }

  // A fallback run cannot be refused locally: only what the API answers counts.
  lemma {:induction false} FallbackIgnoresLocalQuota(c: Config, env: Env, env': Env, left: nat, model: string,
                                                     attempt: nat, n: nat)
    requires attempt >= 1 && env.server == env'.server
    ensures Run(c, env, left, model, false, attempt, n) == Run(c, env', left, model, false, attempt, n)
    decreases left, if attempt > c.maxRetries then 0 else c.maxRetries + 1 - attempt
  {
    hide Run;
    if attempt > c.maxRetries {
      RunOut(c, env, left, model, false, attempt, n);
      RunOut(c, env', left, model, false, attempt, n);
    } else {
      RunStep(c, env, left, model, false, attempt, n);
      RunStep(c, env', left, model, false, attempt, n);
      match StepAt(c, env, left, model, false, attempt, n)
      case Rotate => FallbackIgnoresLocalQuota(c, env, env', left - 1, model, 1, n + 1);
      case Switch =>
      case Again => FallbackIgnoresLocalQuota(c, env, env', left, model, attempt + 1, n + 1);
      case Stop(_) =>
    }
  }
}
