/** What a chat does about each reply, read off its calls: who is called next, or how it ends. */
module GroqReactions {
  import opened GroqChat
  import opened Wrappers

  // How a run starts: the model, whether the fallback is still to spare, and the number of the first attempt.
  datatype Start = Start(model: string, allow: bool, n: nat)

  // Which call this is among those with its key and model, if `before` more were made with the key and model
  // of the stage under way.
  function KthFrom(calls: seq<Call>, i: nat, left: nat, model: string, before: nat): nat
    requires i < |calls|
  {
    CallsOf(calls[..i + 1], calls[i].left, calls[i].model) +
      if calls[i].left == left && calls[i].model == model then before else 0
  }

  function Kth(calls: seq<Call>, i: nat): nat
    requires i < |calls|
  {
    CallsOf(calls[..i + 1], calls[i].left, calls[i].model)
  }

  // No call comes after call i (or none at all, for -1), and the run ends with the verdict.
  predicate EndsWith(r: Report, i: int, left: nat, verdict: Verdict) {
    i == |r.calls| - 1 && r.verdict == verdict && r.left == left
  }

  predicate CallNext(r: Report, i: int, left: nat, model: string)
    requires i >= -1
  {
    i + 1 < |r.calls| && r.calls[i + 1].left == left && r.calls[i + 1].model == model
  }

  // Only a run on the model it started with can still switch.
  predicate MaySwitch(c: Config, s: Start, model: string) {
    s.allow && model == s.model && c.fallback != "" && s.model != c.fallback
  }

  // The next attempt is made with this key and model. If the local quota refuses it, the fallback is called
  // with the same key instead, or there is none and the run ends.
  predicate NextAt(c: Config, env: Env, s: Start, r: Report, i: int, left: nat, model: string)
    requires i >= -1
  {
    if s.allow && model == s.model && env.refuses(s.n + i + 1) then
      if MaySwitch(c, s, model) then CallNext(r, i, left, c.fallback)
      else EndsWith(r, i, left, Raised(RuntimeError))
    else CallNext(r, i, left, model)
  }

  // What follows a call; `last` says whether it is the last attempt allowed with its key and model.
  predicate Reacts(c: Config, env: Env, s: Start, r: Report, i: nat, last: bool)
    requires i < |r.calls|
  {
    var call := r.calls[i];
    var again := NextAt(c, env, s, r, i, call.left, call.model);
    var onFallback := CallNext(r, i, call.left, c.fallback);
    match call.reply
    case Answer => EndsWith(r, i, call.left, Text)
    case StatusError => EndsWith(r, i, call.left, Raised(APIStatusError))
    case ConnectionError => if last then EndsWith(r, i, call.left, Raised(APIConnectionError)) else again
    case Runtime(budget) =>
      if budget && MaySwitch(c, s, call.model) then onFallback
      else EndsWith(r, i, call.left, Raised(RuntimeError))
    case RateLimited(wait) =>
      var long := wait.Some? && wait.value >= 60.0;
      if long && call.left > 1 then NextAt(c, env, s, r, i, call.left - 1, call.model)
      else if (long || last) && MaySwitch(c, s, call.model) then onFallback
      else if last then EndsWith(r, i, call.left, Raised(RateLimitError))
      else again
  }

  // The reply is the server's to that attempt; a refused attempt before it counts as well.
  predicate Heard(env: Env, s: Start, r: Report, i: nat)
    requires i < |r.calls|
  {
    || r.calls[i].reply == env.server(s.n + i)
    || (s.allow && r.calls[i].model != s.model && r.calls[i].reply == env.server(s.n + i + 1))
  }

  ghost predicate AllReact(c: Config, env: Env, s: Start, r: Report, left: nat, before: nat) {
    forall i: nat :: i < |r.calls| ==>
      Heard(env, s, r, i) && Reacts(c, env, s, r, i, KthFrom(r.calls, i, left, s.model, before) == c.maxRetries)
  }

  // ---------------------------------------------------------------- one attempt and the rest of the run

  // Calls of the rest react as they do there, when the rest goes on with the same model.
  lemma SameModel(c: Config, env: Env, s: Start, call: Call, rest: Report, i: nat, last: bool)
    requires i < |rest.calls|
    requires Reacts(c, env, s.(n := s.n + 1), rest, i, last) && Heard(env, s.(n := s.n + 1), rest, i)
    ensures Reacts(c, env, s, After([call], rest), i + 1, last) && Heard(env, s, After([call], rest), i + 1)
  {
    assert ([call] + rest.calls)[i + 1] == rest.calls[i];
  }

  // The same when the rest is a run on the fallback model.
  lemma OnFallback(c: Config, env: Env, s: Start, made: seq<Call>, rest: Report, i: nat, last: bool)
    requires i < |rest.calls| && |made| <= 1 && MaySwitch(c, s, s.model)
    requires forall j :: 0 <= j < |rest.calls| ==> rest.calls[j].model == c.fallback
    requires Reacts(c, env, Start(c.fallback, false, s.n + 1), rest, i, last)
    requires Heard(env, Start(c.fallback, false, s.n + 1), rest, i)
    ensures Reacts(c, env, s, After(made, rest), i + |made|, last) && Heard(env, s, After(made, rest), i + |made|)
  {
    assert (made + rest.calls)[i + |made|] == rest.calls[i];
    if i + 1 < |rest.calls| {
      assert (made + rest.calls)[i + 1 + |made|] == rest.calls[i + 1];
    }
  }

  // The calls of the rest keep their numbers when it is a new stage, and count on when it is the same.
  lemma KthAfter(made: seq<Call>, rest: seq<Call>, i: nat, left: nat, model: string, before: nat,
                 left': nat, model': string)
    requires i < |rest| && |made| <= 1 && (made != [] ==> made[0].left == left && made[0].model == model)
    requires forall j :: 0 <= j < |rest| ==> rest[j].left < left || rest[j].model != model
    ensures KthFrom(made + rest, i + |made|, left, model, before) == KthFrom(rest, i, left', model', 0)
  {
    hide CallsOf;
    assert (made + rest)[..i + |made| + 1] == made + rest[..i + 1];
    CallsOfAdd(made, rest[..i + 1], rest[i].left, rest[i].model);
    CallsOfShort(made, rest[i].left, rest[i].model);
  }

  lemma KthAgain(call: Call, rest: seq<Call>, i: nat, before: nat)
    requires i < |rest|
    ensures KthFrom([call] + rest, i + 1, call.left, call.model, before)
         == KthFrom(rest, i, call.left, call.model, before + 1)
  {
    hide CallsOf;
    assert ([call] + rest)[..i + 2] == [call] + rest[..i + 1];
    CallsOfAdd([call], rest[..i + 1], rest[i].left, rest[i].model);
    CallsOfShort([call], rest[i].left, rest[i].model);
  }

  lemma FirstKth(call: Call, rest: seq<Call>, before: nat)
    ensures KthFrom([call] + rest, 0, call.left, call.model, before) == before + 1
  {
    hide CallsOf;
    assert ([call] + rest)[..1] == [call];
    CallsOfShort([call], call.left, call.model);
  }

  // What the rest of a run is worth after the calls made before it.
  ghost predicate RestReacts(c: Config, env: Env, s: Start, made: seq<Call>, rest: Report, left: nat, before: nat) {
    var r := After(made, rest);
    forall k: nat :: |made| <= k < |r.calls| ==>
      Heard(env, s, r, k) && Reacts(c, env, s, r, k, KthFrom(r.calls, k, left, s.model, before) == c.maxRetries)
  }

  lemma NewStage(c: Config, env: Env, s: Start, made: seq<Call>, rest: Report, left: nat, left': nat, before: nat)
    requires |made| == 1 && made[0].left == left && made[0].model == s.model
    requires left' < left && From(c, left', s.model, s.allow, rest.calls)
    requires AllReact(c, env, s.(n := s.n + 1), rest, left', 0)
    ensures RestReacts(c, env, s, made, rest, left, before)
  {
    hide KthFrom, Reacts, Heard;
    var r := After(made, rest);
    forall k: nat | |made| <= k < |r.calls|
      ensures Heard(env, s, r, k)
      ensures Reacts(c, env, s, r, k, KthFrom(r.calls, k, left, s.model, before) == c.maxRetries)
    {
      var i: nat := k - |made|;
      KthAfter(made, rest.calls, i, left, s.model, before, left', s.model);
      assert made == [made[0]];
      SameModel(c, env, s, made[0], rest, i, KthFrom(rest.calls, i, left', s.model, 0) == c.maxRetries);
    }
  }

  lemma NewModel(c: Config, env: Env, s: Start, made: seq<Call>, rest: Report, left: nat, before: nat)
    requires |made| <= 1 && (made != [] ==> made[0].left == left && made[0].model == s.model)
    requires MaySwitch(c, s, s.model) && From(c, left, c.fallback, false, rest.calls)
    requires AllReact(c, env, Start(c.fallback, false, s.n + 1), rest, left, 0)
    ensures RestReacts(c, env, s, made, rest, left, before)
  {
    hide KthFrom, Reacts, Heard;
    var r := After(made, rest);
    forall k: nat | |made| <= k < |r.calls|
      ensures Heard(env, s, r, k)
      ensures Reacts(c, env, s, r, k, KthFrom(r.calls, k, left, s.model, before) == c.maxRetries)
    {
      var i: nat := k - |made|;
      KthAfter(made, rest.calls, i, left, s.model, before, left, c.fallback);
      OnFallback(c, env, s, made, rest, i, KthFrom(rest.calls, i, left, c.fallback, 0) == c.maxRetries);
    }
  }

  lemma SameStage(c: Config, env: Env, s: Start, made: seq<Call>, rest: Report, left: nat, before: nat)
    requires |made| == 1 && made[0].left == left && made[0].model == s.model
    requires AllReact(c, env, s.(n := s.n + 1), rest, left, before + 1)
    ensures RestReacts(c, env, s, made, rest, left, before)
  {
    hide KthFrom, Reacts, Heard;
    var r := After(made, rest);
    forall k: nat | |made| <= k < |r.calls|
      ensures Heard(env, s, r, k)
      ensures Reacts(c, env, s, r, k, KthFrom(r.calls, k, left, s.model, before) == c.maxRetries)
    {
      var i: nat := k - |made|;
      assert made == [made[0]];
      KthAgain(made[0], rest.calls, i, before);
      SameModel(c, env, s, made[0], rest, i, KthFrom(rest.calls, i, left, s.model, before + 1) == c.maxRetries);
    }
  }

  // The attempt under way, given where the rest of the run starts.
  lemma FirstReacts(c: Config, env: Env, left: nat, model: string, allow: bool, attempt: nat, n: nat,
                    r: Report, rest: Report)
    requires 1 <= attempt <= c.maxRetries && r == Run(c, env, left, model, allow, attempt, n)
    requires match StepAt(c, env, left, model, allow, attempt, n)
      case Rotate => left > 1 && NextAt(c, env, Start(model, allow, n + 1), rest, -1, left - 1, model)
      case Switch => NextAt(c, env, Start(c.fallback, false, n + 1), rest, -1, left, c.fallback)
      case Again => NextAt(c, env, Start(model, allow, n + 1), rest, -1, left, model)
      case Stop(_) => true
    requires var made := CallsAt(env, left, model, allow, n);
      match StepAt(c, env, left, model, allow, attempt, n)
      case Stop(v) => r == Report(made, left, v, n + 1)
      case _ => r == After(made, rest)
    ensures var s := Start(model, allow, n);
      && NextAt(c, env, s, r, -1, left, model)
      && (!Refused(env, allow, n) ==> r.calls != [] && Heard(env, s, r, 0) && Reacts(c, env, s, r, 0, attempt == c.maxRetries))
  {
    hide Run;
  }

  lemma FirstCall(c: Config, env: Env, s: Start, r: Report, left: nat, made: seq<Call>, rest: Report, before: nat)
    requires |made| <= 1 && r == After(made, rest) && RestReacts(c, env, s, made, rest, left, before)
    requires made != [] ==>
      && made[0].left == left && made[0].model == s.model
      && Heard(env, s, r, 0) && Reacts(c, env, s, r, 0, before + 1 == c.maxRetries)
    ensures AllReact(c, env, s, r, left, before)
  {
    hide KthFrom, Heard, Reacts;
    if made != [] {
      FirstKth(made[0], rest.calls, before);
      assert made + rest.calls == [made[0]] + rest.calls;
    }
  }

  lemma LastReacts(c: Config, env: Env, s: Start, made: seq<Call>, r: Report, left: nat, before: nat)
    requires |made| <= 1 && r.calls == made
    requires made != [] ==>
      && made[0].left == left && made[0].model == s.model
      && Heard(env, s, r, 0) && Reacts(c, env, s, r, 0, before + 1 == c.maxRetries)
    ensures AllReact(c, env, s, r, left, before)
  {
    hide KthFrom, Heard, Reacts;
    if made != [] {
      FirstKth(made[0], [], before);
      assert made == [made[0]] + [];
    }
  }

  // A refused attempt never stays at its model.
  lemma RefusalLeaves(c: Config, env: Env, left: nat, model: string, allow: bool, attempt: nat, n: nat)
    ensures StepAt(c, env, left, model, allow, attempt, n) in {Rotate, Again} ==>
      |CallsAt(env, left, model, allow, n)| == 1
  {
  }

  // A run reacts to every call as said, and starts with the attempt it is asked for.
  lemma {:induction false} RunReacts(c: Config, env: Env, left: nat, model: string, allow: bool, attempt: nat, n: nat)
    requires 1 <= attempt <= c.maxRetries
    ensures var r, s := Run(c, env, left, model, allow, attempt, n), Start(model, allow, n);
      NextAt(c, env, s, r, -1, left, model) && AllReact(c, env, s, r, left, attempt - 1)
    decreases left, allow, c.maxRetries + 1 - attempt
  {
    hide Run, KthFrom, Reacts, Heard, Forward, From, NextAt, AllReact, RestReacts, StepAt, After;
    RunStep(c, env, left, model, allow, attempt, n);
    RefusalLeaves(c, env, left, model, allow, attempt, n);
    var s, r := Start(model, allow, n), Run(c, env, left, model, allow, attempt, n);
    var made := CallsAt(env, left, model, allow, n);
    match StepAt(c, env, left, model, allow, attempt, n)
    case Rotate =>
      var rest := Run(c, env, left - 1, model, allow, 1, n + 1);
      RunReacts(c, env, left - 1, model, allow, 1, n + 1);
      StagesGoForward(c, env, left - 1, model, allow, 1, n + 1);
      NewStage(c, env, s, made, rest, left, left - 1, attempt - 1);
      FirstReacts(c, env, left, model, allow, attempt, n, r, rest);
      FirstCall(c, env, s, r, left, made, rest, attempt - 1);
    case Switch =>
      var rest := Run(c, env, left, c.fallback, false, 1, n + 1);
      RunReacts(c, env, left, c.fallback, false, 1, n + 1);
      StagesGoForward(c, env, left, c.fallback, false, 1, n + 1);
      NewModel(c, env, s, made, rest, left, attempt - 1);
      FirstReacts(c, env, left, model, allow, attempt, n, r, rest);
      FirstCall(c, env, s, r, left, made, rest, attempt - 1);
    case Again =>
      var rest := Run(c, env, left, model, allow, attempt + 1, n + 1);
      RunReacts(c, env, left, model, allow, attempt + 1, n + 1);
      SameStage(c, env, s, made, rest, left, attempt - 1);
      FirstReacts(c, env, left, model, allow, attempt, n, r, rest);
      FirstCall(c, env, s, r, left, made, rest, attempt - 1);
    case Stop(_) =>
      FirstReacts(c, env, left, model, allow, attempt, n, r, r);
      LastReacts(c, env, s, made, r, left, attempt - 1);
  }

  // ---------------------------------------------------------------- the whole chat

  // From attempt 1, for every key pool, quota and server: the first attempt is made with the first key and the
  // given model, and every reply is answered as `Reacts` says; the k-th call with a key and model is the
  // last there exactly when k is maxRetries.
  lemma EveryReplyIsAnswered(c: Config, env: Env, left: nat, model: string, allow: bool, n: nat)
    requires c.maxRetries >= 1
    ensures var r, s := Run(c, env, left, model, allow, 1, n), Start(model, allow, n);
      && NextAt(c, env, s, r, -1, left, model)
      && forall i: nat :: i < |r.calls| ==>
           Heard(env, s, r, i) && Reacts(c, env, s, r, i, Kth(r.calls, i) == c.maxRetries)
  {
    hide Run, NextAt, Reacts, Heard, CallsOf;
    RunReacts(c, env, left, model, allow, 1, n);
    var r, s := Run(c, env, left, model, allow, 1, n), Start(model, allow, n);
    forall i: nat | i < |r.calls|
      ensures Heard(env, s, r, i) && Reacts(c, env, s, r, i, Kth(r.calls, i) == c.maxRetries)
    {
      assert KthFrom(r.calls, i, left, model, 0) == Kth(r.calls, i);
    }
  }

  // How a chat fails. A connection error is raised exactly when the last call had one and was the
  // maxRetries-th with its key and model; a rate limit exactly when the last call met one, was such a last
  // attempt, and neither a spare key helps a long wait nor is there a fallback to switch to; a status error
  // exactly when the last call had one.
  lemma FailsIff(c: Config, env: Env, left: nat, model: string, allow: bool, n: nat)
    requires c.maxRetries >= 1
    ensures var r, s := Run(c, env, left, model, allow, 1, n), Start(model, allow, n);
      var m := |r.calls| - 1;
      && (r.verdict == Raised(APIConnectionError) <==>
            m >= 0 && r.calls[m].reply.ConnectionError? && Kth(r.calls, m) == c.maxRetries)
      && (r.verdict == Raised(RateLimitError) <==>
            && m >= 0 && r.calls[m].reply.RateLimited? && Kth(r.calls, m) == c.maxRetries
            && !(r.calls[m].left > 1 && r.calls[m].reply.retryAfter.Some? && r.calls[m].reply.retryAfter.value >= 60.0)
            && !(allow && r.calls[m].model == model && c.fallback != "" && model != c.fallback))
      && (r.verdict == Raised(APIStatusError) <==> m >= 0 && r.calls[m].reply.StatusError?)
  {
    hide Run, Kth;
    EveryReplyIsAnswered(c, env, left, model, allow, n);
    var r, s := Run(c, env, left, model, allow, 1, n), Start(model, allow, n);
    var m := |r.calls| - 1;
    if m >= 0 {
      assert Reacts(c, env, s, r, m, Kth(r.calls, m) == c.maxRetries);
    }
  }
}
