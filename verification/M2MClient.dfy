/** The TypeScript M2MClient: token requests serialised on a promise chain, under any interleaving
    of callers, replies and authenticated fetches. */
module M2MClient {
  import opened Options

  datatype Outcome = Bearer(token: string) | Rejected

  datatype Status = Queued | Fetching(again: real) | Done(outcome: Outcome)

  /** One continuation on the chain; `prev` is the link it was chained onto. */
  datatype Job = Job(force: bool, prev: Option<nat>, status: Status, fetched: bool)

  datatype Phase =
    | AwaitingToken(job: nat)
    | Requesting(token: string)
    | AwaitingForced(job: nat)
    | Retrying(token: string)
    | Finished(response: Option<int>)

  /** One authedFetch call: the tokens its resource requests carried, the job its first token came
      from unless that was cached, and the jobs of its forced refreshes. */
  datatype Fetcher = Fetcher(phase: Phase, sent: seq<string>, first: Option<nat>, forced: seq<nat>)

  datatype State = State(
    skew: real, accessToken: Option<string>, expiresAt: real, chain: Option<nat>, jobs: seq<Job>, fetchers: seq<Fetcher>)

  datatype Event =
    | Get(force: bool, now: real)
    /** The chain reaches job `job`. */
    | Start(job: nat, now: real)
    /** The token endpoint answers: a token and its lifetime, or a failure. */
    | Reply(job: nat, answer: Option<(string, real)>)
    | Fetch(now: real)
    /** The token an authedFetch awaits has settled. */
    | Resume(fetcher: nat)
    /** The resource answers with a status, or the request throws. */
    | Response(fetcher: nat, status: Option<int>)

  const UNAUTHORIZED := 401

  /** The cached token is present and outside the skew margin. */
  predicate Usable(s: State, now: real) { s.accessToken.Some? && s.expiresAt - s.skew > now }

  predicate Settled(s: State, link: Option<nat>)
  {
    link.Some? ==> link.value < |s.jobs| && s.jobs[link.value].status.Done?
  }

  function Enqueued(s: State, force: bool): State
  {
    s.(jobs := s.jobs + [Job(force, s.chain, Queued, false)], chain := Some(|s.jobs|))
  }

  function WithJob(s: State, i: nat, job: Job): State
    requires i < |s.jobs|
  {
    s.(jobs := s.jobs[i := job])
  }

  function WithFetcher(s: State, f: nat, x: Fetcher): State
    requires f < |s.fetchers|
  {
    s.(fetchers := s.fetchers[f := x])
  }

  predicate Enabled(s: State, e: Event)
  {
    match e
    case Get(_, _) => true
    case Start(i, _) => i < |s.jobs| && s.jobs[i].status.Queued? && Settled(s, s.jobs[i].prev)
    case Reply(i, _) => i < |s.jobs| && s.jobs[i].status.Fetching?
    case Fetch(_) => true
    case Resume(f) => f < |s.fetchers| && (match s.fetchers[f].phase
                                           case AwaitingToken(j) => Settled(s, Some(j))
                                           case AwaitingForced(j) => Settled(s, Some(j))
                                           case _ => false)
    case Response(f, _) => f < |s.fetchers| && (s.fetchers[f].phase.Requesting? || s.fetchers[f].phase.Retrying?)
  }

  function After(s: State, e: Event): (r: State)
    requires Enabled(s, e)
  {
    match e
    case Get(force, now) => if !force && Usable(s, now) then s else Enqueued(s, force)
    case Start(i, now) =>
      var job := s.jobs[i];
      if !job.force && Usable(s, now) then WithJob(s, i, job.(status := Done(Bearer(s.accessToken.value))))
      else WithJob(s, i, job.(status := Fetching(now), fetched := true))
    case Reply(i, answer) =>
      var job := s.jobs[i];
      (match answer
       case Some((token, expiresIn)) =>
         WithJob(s, i, job.(status := Done(Bearer(token)))).(
           accessToken := Some(token), expiresAt := job.status.again + expiresIn)
       case None => WithJob(s, i, job.(status := Done(Rejected))))
    case Fetch(now) =>
      if Usable(s, now) then s.(fetchers := s.fetchers + [Fetcher(Requesting(s.accessToken.value), [s.accessToken.value], None, [])])
      else Enqueued(s, false).(fetchers := s.fetchers + [Fetcher(AwaitingToken(|s.jobs|), [], Some(|s.jobs|), [])])
    case Resume(f) =>
      var x := s.fetchers[f];
      (match s.jobs[x.phase.job].status.outcome
       case Bearer(token) =>
         WithFetcher(s, f, x.(phase := if x.phase.AwaitingToken? then Requesting(token) else Retrying(token), sent := x.sent + [token]))
       case Rejected => WithFetcher(s, f, x.(phase := Finished(None))))
    case Response(f, status) =>
      var x := s.fetchers[f];
      if x.phase.Requesting? && status == Some(UNAUTHORIZED) then
        WithFetcher(Enqueued(s, true), f, x.(phase := AwaitingForced(|s.jobs|), forced := x.forced + [|s.jobs|]))
      else WithFetcher(s, f, x.(phase := Finished(status)))
  }

  predicate Feasible(s: State, es: seq<Event>)
    decreases |es|
  {
    es == [] || (Enabled(s, es[0]) && Feasible(After(s, es[0]), es[1..]))
  }

  function Run(s: State, es: seq<Event>): (r: State)
    requires Feasible(s, es)
    decreases |es|
  {
    if es == [] then s else Run(After(s, es[0]), es[1..])
  }

  function NewClient(skew: real): State { State(skew, None, 0.0, None, [], []) }

  // ---------- The client ----------

  /** What getAccessToken hands back: the cached token, or the job to await. */
  datatype Pending = Cached(token: string) | Awaits(job: nat)

  class Client {
    const skew: real
    var accessToken: Option<string>
    var expiresAt: real
    var refreshChain: Option<nat>
    var jobs: seq<Job>
    var fetchers: seq<Fetcher>

    function Value(): State
      reads this
    {
      State(skew, accessToken, expiresAt, refreshChain, jobs, fetchers)
    }

    constructor (skew: real)
      ensures Value() == NewClient(skew)
    {
      this.skew := skew;
      accessToken, expiresAt, refreshChain, jobs, fetchers := None, 0.0, None, [], [];
    }

    /** The part of getAccessToken before its first await. */
    method GetAccessToken(force: bool, now: real) returns (p: Pending)
      modifies this
      ensures Value() == After(old(Value()), Get(force, now))
      ensures p == if !force && Usable(old(Value()), now) then Cached(old(accessToken).value) else Awaits(|old(jobs)|)
      ensures p.Awaits? ==> p.job < |jobs| && jobs[p.job].force == force && jobs[p.job].status.Queued?
    {
      if !force && accessToken.Some? && expiresAt - skew > now {
        return Cached(accessToken.value);
      }
      var job := |jobs|;
      jobs := jobs + [Job(force, refreshChain, Queued, false)];
      refreshChain := Some(job);
      return Awaits(job);
    }

    /** The continuation up to the token request. */
    method RunJob(i: nat, now: real)
      requires Enabled(Value(), Start(i, now))
      modifies this
      ensures Value() == After(old(Value()), Start(i, now))
      ensures accessToken == old(accessToken) && |jobs| == |old(jobs)| && forall j :: 0 <= j < |jobs| && j != i ==> jobs[j] == old(jobs)[j]
      ensures jobs[i].status.Done? ==> accessToken.Some? && jobs[i].status == Done(Bearer(accessToken.value))
    {
      var job := jobs[i];
      if !job.force && accessToken.Some? && expiresAt - skew > now {
        jobs := jobs[i := job.(status := Done(Bearer(accessToken.value)))];
        return;
      }
      jobs := jobs[i := job.(status := Fetching(now), fetched := true)];
    }

    /** The continuation after the token request. */
    method OnReply(i: nat, answer: Option<(string, real)>)
      requires Enabled(Value(), Reply(i, answer))
      modifies this
      ensures Value() == After(old(Value()), Reply(i, answer))
      ensures |jobs| == |old(jobs)| && forall j :: 0 <= j < |jobs| && j != i ==> jobs[j] == old(jobs)[j]
      ensures answer.Some? ==>
        && jobs[i].status == Done(Bearer(answer.value.0)) && accessToken == Some(answer.value.0)
        && expiresAt == old(jobs)[i].status.again + answer.value.1
      ensures answer.None? ==> jobs[i].status == Done(Rejected) && accessToken == old(accessToken) && expiresAt == old(expiresAt)
    {
      var job := jobs[i];
      match answer {
        case Some((token, expiresIn)) =>
          accessToken := Some(token);
          expiresAt := job.status.again + expiresIn;
          jobs := jobs[i := job.(status := Done(Bearer(token)))];
        case None =>
          jobs := jobs[i := job.(status := Done(Rejected))];
      }
    }

    method AuthedFetch(now: real)
      modifies this
      ensures Value() == After(old(Value()), Fetch(now))
    {
      var p := GetAccessToken(false, now);
      match p {
        case Cached(token) => fetchers := fetchers + [Fetcher(Requesting(token), [token], None, [])];
        case Awaits(job) => fetchers := fetchers + [Fetcher(AwaitingToken(job), [], Some(job), [])];
      }
    }

    /** The awaited token has settled: send the request, or fail with the job. */
    method OnToken(f: nat)
      requires Enabled(Value(), Resume(f))
      modifies this
      ensures Value() == After(old(Value()), Resume(f))
      ensures var outcome := jobs[old(fetchers)[f].phase.job].status.outcome;
        if outcome.Bearer? then fetchers[f].sent == old(fetchers)[f].sent + [outcome.token]
        else fetchers[f].sent == old(fetchers)[f].sent && fetchers[f].phase == Finished(None)
    {
      var x := fetchers[f];
      match jobs[x.phase.job].status.outcome {
        case Bearer(token) =>
          var phase := if x.phase.AwaitingToken? then Requesting(token) else Retrying(token);
          fetchers := fetchers[f := x.(phase := phase, sent := x.sent + [token])];
        case Rejected =>
          fetchers := fetchers[f := x.(phase := Finished(None))];
      }
    }

    method OnResponse(f: nat, status: Option<int>, now: real)
      requires Enabled(Value(), Response(f, status))
      modifies this
      ensures Value() == After(old(Value()), Response(f, status))
      ensures fetchers[f].sent == old(fetchers)[f].sent
      ensures fetchers[f].phase ==
        if old(fetchers)[f].phase.Requesting? && status == Some(UNAUTHORIZED) then AwaitingForced(|old(jobs)|) else Finished(status)
    {
      var x := fetchers[f];
      if x.phase.Requesting? && status == Some(UNAUTHORIZED) {
        var p := GetAccessToken(true, now);
        fetchers := fetchers[f := x.(phase := AwaitingForced(p.job), forced := x.forced + [p.job])];
        return;
      }
      fetchers := fetchers[f := x.(phase := Finished(status))];
    }
  }

  // ---------- Every interleaving ----------

  /** The chain is a queue: jobs are linked in call order and each starts only after all earlier
      ones have settled. */
  ghost predicate Chained(s: State)
  {
    && s.chain == (if s.jobs == [] then None else Some(|s.jobs| - 1))
    && (forall i :: 0 <= i < |s.jobs| ==> s.jobs[i].prev == if i == 0 then None else Some(i - 1))
    && (forall i, j :: 0 <= i < j < |s.jobs| && !s.jobs[j].status.Queued? ==> s.jobs[i].status.Done?)
  }

  /** A forced job settles with a token only from its own request, and none is made before it starts. */
  ghost predicate ForcedFetch(s: State)
  {
    forall i :: 0 <= i < |s.jobs| ==>
      && (s.jobs[i].status.Queued? ==> !s.jobs[i].fetched)
      && (s.jobs[i].status.Fetching? ==> s.jobs[i].fetched)
      && (s.jobs[i].force && s.jobs[i].status.Done? ==> s.jobs[i].fetched)
  }

  /** The first request carries the token its job settled with, the second the token of the forced
      job, and nothing is asked for twice. */
  predicate Bounded(s: State, x: Fetcher)
  {
    && (x.first.Some? ==> x.first.value < |s.jobs| && !s.jobs[x.first.value].force)
    && (forall k :: 0 <= k < |x.forced| ==> x.forced[k] < |s.jobs| && s.jobs[x.forced[k]].force)
    && (x.first.Some? && x.sent != [] ==> s.jobs[x.first.value].status == Done(Bearer(x.sent[0])))
    && (|x.sent| == 2 ==> |x.forced| == 1 && s.jobs[x.forced[0]].status == Done(Bearer(x.sent[1])))
    && match x.phase
       case AwaitingToken(j) => x.first == Some(j) && x.sent == [] && x.forced == []
       case Requesting(token) => x.sent == [token] && x.forced == []
       case AwaitingForced(j) => |x.sent| == 1 && x.forced == [j]
       case Retrying(token) => |x.sent| == 2 && x.sent[1] == token
       case Finished(r) =>
         |x.forced| <= 1 && (|x.sent| == 1 + |x.forced| || (r.None? && Failed(s, x)))
  }

  /** The token it awaited last was refused. */
  predicate Failed(s: State, x: Fetcher)
  {
    && |x.sent| == |x.forced| <= 1
    && var awaited := if x.forced == [] then x.first else Some(x.forced[0]);
       awaited.Some? && awaited.value < |s.jobs| && s.jobs[awaited.value].status == Done(Rejected)
  }

  ghost predicate Inv(s: State)
  {
    Chained(s) && ForcedFetch(s) && forall f :: 0 <= f < |s.fetchers| ==> Bounded(s, s.fetchers[f])
  }

  lemma ChainedStep(s: State, e: Event)
    requires Chained(s) && Enabled(s, e)
    ensures Chained(After(s, e))
  {
  }

  lemma ForcedStep(s: State, e: Event)
    requires ForcedFetch(s) && Enabled(s, e)
    ensures ForcedFetch(After(s, e))
  {
  }

  /** Jobs are added and settle; a settled one does not change. */
  ghost predicate Later(s: State, t: State)
  {
    && |s.jobs| <= |t.jobs|
    && forall i :: 0 <= i < |s.jobs| ==>
         t.jobs[i].force == s.jobs[i].force && (s.jobs[i].status.Done? ==> t.jobs[i].status == s.jobs[i].status)
  }

  lemma JobsLater(s: State, e: Event)
    requires Enabled(s, e)
    ensures Later(s, After(s, e))
  {
  }

  lemma BoundedLater(s: State, t: State, x: Fetcher)
    requires Later(s, t) && Bounded(s, x)
    ensures Bounded(t, x)
  {
  }

  /** The fetcher an event is about, if any. */
  predicate Moves(e: Event, f: nat) { (e.Resume? || e.Response?) && e.fetcher == f }

  lemma MovedIsBounded(s: State, e: Event, f: nat)
    requires Enabled(s, e) && Moves(e, f) && Bounded(s, s.fetchers[f])
    ensures Bounded(After(s, e), After(s, e).fetchers[f])
  {
    JobsLater(s, e);
    BoundedLater(s, After(s, e), s.fetchers[f]);
  }

  lemma NewIsBounded(s: State, now: real)
    ensures var t := After(s, Fetch(now)); |t.fetchers| == |s.fetchers| + 1 && Bounded(t, t.fetchers[|s.fetchers|])
  {
  }

  lemma OthersStay(s: State, e: Event, f: nat)
    requires Enabled(s, e) && f < |s.fetchers| && !Moves(e, f)
    ensures f < |After(s, e).fetchers| && After(s, e).fetchers[f] == s.fetchers[f]
  {
  }

  lemma FetcherCount(s: State, e: Event)
    requires Enabled(s, e)
    ensures |After(s, e).fetchers| == |s.fetchers| + if e.Fetch? then 1 else 0
  {
  }

  lemma StepInv(s: State, e: Event)
    requires Inv(s) && Enabled(s, e)
    ensures Inv(After(s, e))
  {
    hide After, Enabled, Chained, ForcedFetch, Bounded, Later;
    var t := After(s, e);
    ChainedStep(s, e);
    ForcedStep(s, e);
    JobsLater(s, e);
    FetcherCount(s, e);
    forall f | 0 <= f < |t.fetchers|
      ensures Bounded(t, t.fetchers[f])
    {
      if f == |s.fetchers| {
        NewIsBounded(s, e.now);
      } else if Moves(e, f) {
        MovedIsBounded(s, e, f);
      } else {
        OthersStay(s, e, f);
        BoundedLater(s, t, s.fetchers[f]);
      }
    }
  }

  lemma {:induction false} RunInv(s: State, es: seq<Event>)
    requires Inv(s) && Feasible(s, es)
    ensures Inv(Run(s, es))
    decreases |es|
  {
    hide Inv;
    if es != [] {
      StepInv(s, es[0]);
      RunInv(After(s, es[0]), es[1..]);
    }
  }

  lemma NewClientInv(skew: real, es: seq<Event>)
    requires Feasible(NewClient(skew), es)
    ensures Inv(Run(NewClient(skew), es))
  {
    RunInv(NewClient(skew), es);
  }

  /** At most one token request is in flight, whatever the interleaving. */
  lemma OneRequestInFlight(skew: real, es: seq<Event>, i: nat, j: nat)
    requires Feasible(NewClient(skew), es)
    requires var s := Run(NewClient(skew), es);
      i < |s.jobs| && j < |s.jobs| && s.jobs[i].status.Fetching? && s.jobs[j].status.Fetching?
    ensures i == j
  {
    NewClientInv(skew, es);
  }

  /** An authedFetch issues at most two resource requests and one forced refresh. Its first request
      carries the token its job settled with; the second comes only after the forced refresh and
      carries the answer to a request of that refresh's own. */
  lemma AuthedFetchIsBounded(skew: real, es: seq<Event>, f: nat)
    requires Feasible(NewClient(skew), es) && f < |Run(NewClient(skew), es).fetchers|
    ensures var s := Run(NewClient(skew), es); var x := s.fetchers[f];
      && |x.sent| <= 2 && |x.forced| <= 1
      && (x.sent != [] && x.first.Some? ==> x.first.value < |s.jobs| && s.jobs[x.first.value].status == Done(Bearer(x.sent[0])))
      && (|x.sent| == 2 ==> |x.forced| == 1 && x.forced[0] < |s.jobs| && var job := s.jobs[x.forced[0]];
            job.force && job.fetched && job.status == Done(Bearer(x.sent[1])))
  {
    NewClientInv(skew, es);
    assert Bounded(Run(NewClient(skew), es), Run(NewClient(skew), es).fetchers[f]);
  }

  // ---------- A failure does not block ----------

  /** The steps the chain still has to take. */
  function Work(jobs: seq<Job>): (n: nat)
  {
    if jobs == [] then 0
    else
      var last := jobs[|jobs| - 1];
      Work(jobs[..|jobs| - 1]) + if last.status.Queued? then 2 else if last.status.Fetching? then 1 else 0
  }

  lemma {:induction false} WorkAt(jobs: seq<Job>, i: nat, job: Job)
    requires i < |jobs|
    ensures Work(jobs[i := job]) - Work([job]) == Work(jobs) - Work([jobs[i]])
  {
    var k := |jobs| - 1;
    assert [job][..0] == [] && [jobs[i]][..0] == [];
    if i == k {
      assert jobs[i := job][..k] == jobs[..k];
    } else {
      WorkAt(jobs[..k], i, job);
      assert jobs[i := job][..k] == jobs[..k][i := job];
    }
  }

  lemma {:induction false} NoWork(jobs: seq<Job>)
    ensures Work(jobs) == 0 <==> forall i :: 0 <= i < |jobs| ==> jobs[i].status.Done?
  {
    if jobs != [] { NoWork(jobs[..|jobs| - 1]); }
  }

  predicate ChainStep(e: Event) { e.Start? || e.Reply? }

  /** A chain step is one step fewer, so the chain cannot run on without new calls. */
  lemma ChainStepProgress(s: State, e: Event)
    requires Enabled(s, e) && ChainStep(e)
    ensures Work(After(s, e).jobs) < Work(s.jobs)
  {
    var i := e.job;
    var job := After(s, e).jobs[i];
    WorkAt(s.jobs, i, job);
    assert [job][..0] == [] && [s.jobs[i]][..0] == [];
  }

  /** So a run of chain steps is no longer than the work there was. */
  lemma {:induction false} ChainDrains(s: State, es: seq<Event>)
    requires Feasible(s, es) && forall i :: 0 <= i < |es| ==> ChainStep(es[i])
    ensures |es| + Work(Run(s, es).jobs) <= Work(s.jobs)
    decreases |es|
  {
    if es != [] {
      ChainStepProgress(s, es[0]);
      ChainDrains(After(s, es[0]), es[1..]);
    }
  }

  /** Some chain step can be taken in every reachable state with an unsettled job, whether the jobs
      before it succeeded or failed: what is in flight can be answered, and if nothing is, the
      oldest unsettled job can start. So, by ChainDrains, every caller gets an answer once
      the endpoint has answered what it was sent. */
  lemma FailureDoesNotBlock(skew: real, es: seq<Event>, now: real, answer: Option<(string, real)>)
    requires Feasible(NewClient(skew), es) && Work(Run(NewClient(skew), es).jobs) > 0
    ensures var s := Run(NewClient(skew), es);
      exists i :: 0 <= i < |s.jobs| && (Enabled(s, Start(i, now)) || Enabled(s, Reply(i, answer)))
                  && forall j :: 0 <= j < i ==> s.jobs[j].status.Done?
  {
    NewClientInv(skew, es);
    var s := Run(NewClient(skew), es);
    hide Run, Feasible;
    NoWork(s.jobs);
    var i := Oldest(s.jobs, 0);
    assert if s.jobs[i].status.Queued? then Enabled(s, Start(i, now)) else Enabled(s, Reply(i, answer));
  }

  function Oldest(jobs: seq<Job>, from: nat): (i: nat)
    requires from <= |jobs| && exists i :: from <= i < |jobs| && !jobs[i].status.Done?
    ensures from <= i < |jobs| && !jobs[i].status.Done? && forall j :: from <= j < i ==> jobs[j].status.Done?
    decreases |jobs| - from
  {
    if jobs[from].status.Done? then Oldest(jobs, from + 1) else from
  }

  // ---------- Queued callers share one fetch ----------

  /** No forced refresh is asked for, and every clock reading is outside the skew of `expiresAt`. */
  predicate Calm(e: Event, s: State)
  {
    && (e.Get? ==> !e.force && e.now < s.expiresAt - s.skew)
    && (e.Start? || e.Fetch? ==> e.now < s.expiresAt - s.skew)
    && (e.Response? ==> e.status != Some(UNAUTHORIZED))
  }

  /** The cached token serves everything queued. */
  ghost predicate Serving(s0: State, s: State)
  {
    && s.accessToken == s0.accessToken && s.accessToken.Some? && s.expiresAt == s0.expiresAt && s.skew == s0.skew
    && |s0.jobs| <= |s.jobs|
    && (forall i :: 0 <= i < |s.jobs| ==> !s.jobs[i].status.Fetching? && (s.jobs[i].status.Queued? ==> !s.jobs[i].force))
    && (forall i :: 0 <= i < |s0.jobs| ==>
          && s.jobs[i].fetched == s0.jobs[i].fetched
          && (s0.jobs[i].status.Done? ==> s.jobs[i].status == s0.jobs[i].status)
          && (s0.jobs[i].status.Queued? ==> s.jobs[i].status.Queued? || s.jobs[i].status == Done(Bearer(s0.accessToken.value))))
    && (forall i :: |s0.jobs| <= i < |s.jobs| ==>
          && !s.jobs[i].fetched
          && (s.jobs[i].status.Queued? || s.jobs[i].status == Done(Bearer(s0.accessToken.value))))
  }

  lemma ServingStep(s0: State, s: State, e: Event)
    requires Serving(s0, s) && Enabled(s, e) && Calm(e, s0)
    ensures Serving(s0, After(s, e))
  {
  }

  /** With a token cached and nothing in flight, any number of queued and new non-forced callers are
      all served that token: no job of the run makes a request while the clock stays outside the
      skew margin. */
  lemma {:induction false} QueuedCallersShareOneFetch(s0: State, s: State, es: seq<Event>)
    requires Serving(s0, s) && Feasible(s, es) && forall i :: 0 <= i < |es| ==> Calm(es[i], s0)
    ensures Serving(s0, Run(s, es))
    decreases |es|
  {
    hide Serving;
    if es != [] {
      ServingStep(s0, s, es[0]);
      QueuedCallersShareOneFetch(s0, After(s, es[0]), es[1..]);
    }
  }

  /** Such a state is what every successful fetch leaves when no forced caller is queued. */
  lemma FetchServes(skew: real, es: seq<Event>, i: nat, token: string, expiresIn: real)
    requires Feasible(NewClient(skew), es)
    requires var s := Run(NewClient(skew), es);
      Enabled(s, Reply(i, Some((token, expiresIn)))) && forall j :: 0 <= j < |s.jobs| && s.jobs[j].status.Queued? ==> !s.jobs[j].force
    ensures var s := After(Run(NewClient(skew), es), Reply(i, Some((token, expiresIn))));
      Serving(s, s) && s.accessToken == Some(token)
  {
    NewClientInv(skew, es);
    var s := Run(NewClient(skew), es);
    hide Run, Feasible;
    forall j | 0 <= j < |s.jobs| && s.jobs[j].status.Fetching?
      ensures j == i
    {
      assert !s.jobs[i].status.Queued? && !s.jobs[j].status.Queued?;
    }
  }
}
