/** Where tokens come from: over every run of the M2M client, what the cache, a job and a fetch hold
    is read off the events themselves. */
module M2MHistory {
  import opened Options
  import opened M2MClient

  // ---------- Reading a run ----------

  predicate Success(e: Event) { e.Reply? && e.answer.Some? }

  /** Event `m` is the last successful token reply before position `k`. */
  ghost predicate LastBefore(es: seq<Event>, m: nat, k: nat)
  {
    m < k <= |es| && Success(es[m]) && forall n :: m < n < k ==> !Success(es[n])
  }

  predicate Started(es: seq<Event>, k: nat, i: nat) { k < |es| && es[k].Start? && es[k].job == i }

  predicate Replied(es: seq<Event>, k: nat, i: nat) { k < |es| && es[k].Reply? && es[k].job == i }

  predicate Answered(es: seq<Event>, k: nat, f: nat) { k < |es| && es[k].Response? && es[k].fetcher == f }

  /** Event `k` is the last resource response that fetch `f` got. */
  ghost predicate LastAnswer(es: seq<Event>, k: nat, f: nat)
  {
    Answered(es, k, f) && forall n :: k < n < |es| ==> !Answered(es, n, f)
  }

  function Fetches(es: seq<Event>, k: nat): (n: nat)
    requires k <= |es|
  {
    if k == 0 then 0 else Fetches(es, k - 1) + if es[k - 1].Fetch? then 1 else 0
  }

  /** Event `k` is the call that made fetch `f`. */
  predicate Called(es: seq<Event>, k: nat, f: nat) { k < |es| && es[k].Fetch? && Fetches(es, k) == f }

  function Settles(answer: Option<(string, real)>): (o: Outcome)
  {
    if answer.Some? then Bearer(answer.value.0) else Rejected
  }

  /** The token of reply `m` outlives `now` by more than the skew, its life counted from the start of
      the request it answered. */
  ghost predicate Fresh(es: seq<Event>, skew: real, m: nat, now: real)
  {
    && m < |es| && Success(es[m])
    && exists j :: 0 <= j < m && Started(es, j, es[m].job) && es[j].now + es[m].answer.value.1 - skew > now
  }

  /** At event `k` the last token the client was given is still good. */
  ghost predicate Servable(es: seq<Event>, skew: real, k: nat, now: real)
  {
    exists m: nat :: LastBefore(es, m, k) && Fresh(es, skew, m, now)
  }

  // ---------- What the state says about the run ----------

  /** The cached token and its expiry are those of the last successful reply. */
  ghost predicate CacheHistory(es: seq<Event>, s: State)
  {
    if s.accessToken.None? then s.expiresAt == 0.0 && forall m :: 0 <= m < |es| ==> !Success(es[m])
    else exists m: nat :: LastBefore(es, m, |es|) && CachedFrom(es, s, m)
  }

  ghost predicate CachedFrom(es: seq<Event>, s: State, m: nat)
  {
    && m < |es| && Success(es[m]) && s.accessToken == Some(es[m].answer.value.0)
    && (exists k :: 0 <= k < m && Started(es, k, es[m].job))
    && forall k :: 0 <= k < |es| && Started(es, k, es[m].job) ==> s.expiresAt == es[k].now + es[m].answer.value.1
  }

  /** Every token reply settled its job with what it brought. */
  ghost predicate RepliesSettle(es: seq<Event>, s: State)
  {
    forall k :: 0 <= k < |es| && es[k].Reply? ==>
      es[k].job < |s.jobs| && s.jobs[es[k].job].fetched && s.jobs[es[k].job].status == Done(Settles(es[k].answer))
  }

  ghost predicate StartsShow(es: seq<Event>, s: State)
  {
    forall k :: 0 <= k < |es| && es[k].Start? ==>
      && es[k].job < |s.jobs| && !s.jobs[es[k].job].status.Queued?
      && (s.jobs[es[k].job].status.Fetching? ==> s.jobs[es[k].job].status.again == es[k].now)
  }

  /** Job `i` was served from the cache when it started at event `k`, with the token that reply `m`
      had brought. */
  ghost predicate ServedAt(es: seq<Event>, i: nat, token: string, k: nat, m: nat)
  {
    Started(es, k, i) && LastBefore(es, m, k) && es[m].answer.value.0 == token
  }

  ghost predicate JobHistory(es: seq<Event>, job: Job, i: nat)
  {
    match job.status
    case Queued => true
    case Fetching(_) => exists k :: 0 <= k < |es| && Started(es, k, i)
    case Done(outcome) =>
      if job.fetched then exists k :: 0 <= k < |es| && Replied(es, k, i) && Settles(es[k].answer) == outcome
      else outcome.Bearer? && exists k: nat, m: nat :: ServedAt(es, i, outcome.token, k, m)
  }

  ghost predicate JobsHistory(es: seq<Event>, s: State)
  {
    forall i :: 0 <= i < |s.jobs| ==> JobHistory(es, s.jobs[i], i)
  }

  /** Fetch `f` was called at event `k` with the token of reply `m` in the cache. */
  ghost predicate SentAt(es: seq<Event>, f: nat, token: string, k: nat, m: nat)
  {
    Called(es, k, f) && LastBefore(es, m, k) && es[m].answer.value.0 == token
  }

  ghost predicate FetchHistory(es: seq<Event>, x: Fetcher, f: nat)
  {
    && (x.first.None? ==> x.sent != [] && exists k: nat, m: nat :: SentAt(es, f, x.sent[0], k, m))
    && match x.phase
       case AwaitingToken(_) => forall n :: 0 <= n < |es| ==> !Answered(es, n, f)
       case Requesting(_) => forall n :: 0 <= n < |es| ==> !Answered(es, n, f)
       case AwaitingForced(_) => exists n: nat :: LastAnswer(es, n, f) && es[n].status == Some(UNAUTHORIZED)
       case Retrying(_) => exists n: nat :: LastAnswer(es, n, f) && es[n].status == Some(UNAUTHORIZED)
       case Finished(r) =>
         |x.sent| == 1 + |x.forced| ==>
           exists n: nat :: LastAnswer(es, n, f) && es[n].status == r && (x.forced == [] ==> r != Some(UNAUTHORIZED))
  }

  ghost predicate FetchesHistory(es: seq<Event>, s: State)
  {
    && |s.fetchers| == Fetches(es, |es|)
    && (forall n :: 0 <= n < |es| && es[n].Response? ==> es[n].fetcher < |s.fetchers|)
    && forall f :: 0 <= f < |s.fetchers| ==> FetchHistory(es, s.fetchers[f], f)
  }

  /** A job asks the endpoint exactly when it is forced or no token is still good as it starts. */
  ghost predicate StartsDecide(es: seq<Event>, s: State)
  {
    forall k :: 0 <= k < |es| && es[k].Start? ==>
      es[k].job < |s.jobs| && (s.jobs[es[k].job].fetched <==> s.jobs[es[k].job].force || !Servable(es, s.skew, k, es[k].now))
  }

  /** A fetch sends at once exactly when a token is still good as it is called. */
  ghost predicate CallsDecide(es: seq<Event>, s: State)
  {
    forall k :: 0 <= k < |es| && es[k].Fetch? ==>
      && Fetches(es, k) < |s.fetchers|
      && (s.fetchers[Fetches(es, k)].first.None? <==> Servable(es, s.skew, k, es[k].now))
  }

  ghost predicate History(es: seq<Event>, s: State)
  {
    && Inv(s) && RepliesSettle(es, s) && StartsShow(es, s) && CacheHistory(es, s) && JobsHistory(es, s)
    && FetchesHistory(es, s) && StartsDecide(es, s) && CallsDecide(es, s)
  }

  // ---------- One more event ----------

  lemma RepliesStep(es: seq<Event>, s: State, e: Event)
    requires RepliesSettle(es, s) && ForcedFetch(s) && Enabled(s, e)
    ensures RepliesSettle(es + [e], After(s, e))
  {
  }

  lemma StartsStep(es: seq<Event>, s: State, e: Event)
    requires StartsShow(es, s) && Enabled(s, e)
    ensures StartsShow(es + [e], After(s, e))
  {
  }

  lemma LastBeforeMore(es: seq<Event>, e: Event, m: nat, k: nat)
    requires LastBefore(es, m, k)
    ensures LastBefore(es + [e], m, k) && (k == |es| && !Success(e) ==> LastBefore(es + [e], m, k + 1))
  {
  }

  lemma CacheStep(es: seq<Event>, s: State, e: Event)
    requires CacheHistory(es, s) && StartsShow(es, s) && RepliesSettle(es, s) && JobsHistory(es, s) && Enabled(s, e)
    ensures CacheHistory(es + [e], After(s, e))
  {
    var more, t := es + [e], After(s, e);
    if Success(e) {
      NewlyCached(es, s, e);
    } else if s.accessToken.Some? {
      var m: nat :| LastBefore(es, m, |es|) && CachedFrom(es, s, m);
      LastBeforeMore(es, e, m, |es|);
      StillCached(es, s, e, m);
    } else {
      CacheKept(s, e);
    }
  }

  lemma CacheKept(s: State, e: Event)
    requires Enabled(s, e) && !Success(e)
    ensures After(s, e).accessToken == s.accessToken && After(s, e).expiresAt == s.expiresAt
  {
  }

  lemma NewlyCached(es: seq<Event>, s: State, e: Event)
    requires StartsShow(es, s) && JobsHistory(es, s) && Enabled(s, e) && Success(e)
    ensures CacheHistory(es + [e], After(s, e))
  {
    var more, t, m := es + [e], After(s, e), |es|;
    var i := e.job;
    assert s.jobs[i].status.Fetching? && JobHistory(es, s.jobs[i], i);
    var k: nat :| k < |es| && Started(es, k, i);
    assert Started(more, k, i);
    forall n | 0 <= n < |more| && Started(more, n, i)
      ensures t.expiresAt == more[n].now + e.answer.value.1
    {
      assert n < |es| && es[n] == more[n];
    }
    assert LastBefore(more, m, |more|) && CachedFrom(more, t, m);
  }

  lemma StillCached(es: seq<Event>, s: State, e: Event, m: nat)
    requires CachedFrom(es, s, m) && RepliesSettle(es, s) && Enabled(s, e) && !Success(e)
    ensures CachedFrom(es + [e], After(s, e), m)
  {
    var more := es + [e];
    CacheKept(s, e);
    var k: nat :| k < m && Started(es, k, es[m].job);
    assert Started(more, k, more[m].job);
    forall n | 0 <= n < |more| && Started(more, n, more[m].job)
      ensures s.expiresAt == more[n].now + more[m].answer.value.1
    {
      assert s.jobs[es[m].job].status.Done?;
      assert n < |es| && Started(es, n, es[m].job);
    }
  }

  lemma JobKept(es: seq<Event>, e: Event, job: Job, i: nat)
    requires JobHistory(es, job, i)
    ensures JobHistory(es + [e], job, i)
  {
    var more := es + [e];
    if job.status.Fetching? {
      var k: nat :| k < |es| && Started(es, k, i);
      assert Started(more, k, i);
    } else if job.status.Done? && job.fetched {
      var k: nat :| k < |es| && Replied(es, k, i) && Settles(es[k].answer) == job.status.outcome;
      assert Replied(more, k, i) && Settles(more[k].answer) == job.status.outcome;
    } else if job.status.Done? {
      var k: nat, m: nat :| ServedAt(es, i, job.status.outcome.token, k, m);
      LastBeforeMore(es, e, m, k);
      assert ServedAt(more, i, job.status.outcome.token, k, m);
    }
  }

  /** The jobs an event leaves alone. */
  lemma OtherJobs(s: State, e: Event, i: nat)
    requires Enabled(s, e) && i < |After(s, e).jobs| && !(ChainStep(e) && e.job == i)
    ensures i < |s.jobs| ==> After(s, e).jobs[i] == s.jobs[i]
    ensures i >= |s.jobs| ==> After(s, e).jobs[i].status.Queued?
  {
  }

  lemma ServedNow(es: seq<Event>, s: State, i: nat, now: real)
    requires CacheHistory(es, s) && ForcedFetch(s) && Enabled(s, Start(i, now))
    ensures JobHistory(es + [Start(i, now)], After(s, Start(i, now)).jobs[i], i)
  {
    var e := Start(i, now);
    var more, job := es + [e], After(s, e).jobs[i];
    assert Started(more, |es|, i);
    if job.status.Done? {
      var m: nat :| LastBefore(es, m, |es|) && CachedFrom(es, s, m);
      LastBeforeMore(es, e, m, |es|);
      assert ServedAt(more, i, job.status.outcome.token, |es|, m);
    }
  }

  lemma SettledNow(es: seq<Event>, s: State, i: nat, answer: Option<(string, real)>)
    requires ForcedFetch(s) && Enabled(s, Reply(i, answer))
    ensures JobHistory(es + [Reply(i, answer)], After(s, Reply(i, answer)).jobs[i], i)
  {
    var more := es + [Reply(i, answer)];
    assert Replied(more, |es|, i) && Settles(more[|es|].answer) == Settles(answer);
  }

  lemma JobsStep(es: seq<Event>, s: State, e: Event)
    requires JobsHistory(es, s) && CacheHistory(es, s) && ForcedFetch(s) && Enabled(s, e)
    ensures JobsHistory(es + [e], After(s, e))
  {
    var t := After(s, e);
    hide After, CacheHistory, JobHistory, ForcedFetch;
    forall i | 0 <= i < |t.jobs|
      ensures JobHistory(es + [e], t.jobs[i], i)
    {
      if e.Start? && e.job == i {
        ServedNow(es, s, i, e.now);
      } else if e.Reply? && e.job == i {
        SettledNow(es, s, i, e.answer);
      } else {
        OtherJobs(s, e, i);
        if i < |s.jobs| { JobKept(es, e, s.jobs[i], i); } else { QueuedHistory(es + [e], t.jobs[i], i); }
      }
    }
  }

  lemma QueuedHistory(es: seq<Event>, job: Job, i: nat)
    requires job.status.Queued?
    ensures JobHistory(es, job, i)
  {
  }

  // ---------- One more event, for a fetch ----------

  lemma {:induction false} FetchesMore(es: seq<Event>, e: Event, k: nat)
    requires k <= |es|
    ensures Fetches(es + [e], k) == Fetches(es, k)
  {
    if k > 0 { FetchesMore(es, e, k - 1); }
  }

  lemma AnsweredMore(es: seq<Event>, e: Event, f: nat)
    requires !(e.Response? && e.fetcher == f)
    ensures (forall n :: 0 <= n < |es| ==> !Answered(es, n, f)) ==> forall n :: 0 <= n < |es + [e]| ==> !Answered(es + [e], n, f)
    ensures forall n: nat :: LastAnswer(es, n, f) ==> LastAnswer(es + [e], n, f)
  {
    var more := es + [e];
    assert forall n :: 0 <= n < |more| && Answered(more, n, f) ==> n < |es| && Answered(es, n, f);
    forall n: nat | LastAnswer(es, n, f)
      ensures LastAnswer(more, n, f)
    {
      assert forall j :: n < j < |es| ==> Answered(more, j, f) == Answered(es, j, f);
    }
  }

  lemma SentMore(es: seq<Event>, e: Event, f: nat, token: string, k: nat, m: nat)
    requires SentAt(es, f, token, k, m)
    ensures SentAt(es + [e], f, token, k, m)
  {
    FetchesMore(es, e, k);
    LastBeforeMore(es, e, m, k);
  }

  /** How the first request got its token is not changed by what follows. */
  lemma FirstKept(es: seq<Event>, e: Event, x: Fetcher, f: nat)
    requires FetchHistory(es, x, f)
    ensures x.first.None? ==> x.sent != [] && exists k: nat, m: nat :: SentAt(es + [e], f, x.sent[0], k, m)
  {
    if x.first.None? {
      var k: nat, m: nat :| SentAt(es, f, x.sent[0], k, m);
      SentMore(es, e, f, x.sent[0], k, m);
    }
  }

  lemma FetchKept(es: seq<Event>, e: Event, x: Fetcher, f: nat)
    requires FetchHistory(es, x, f) && !(e.Response? && e.fetcher == f)
    ensures FetchHistory(es + [e], x, f)
  {
    FirstKept(es, e, x, f);
    AnsweredMore(es, e, f);
    hide LastAnswer, SentAt, Answered;
  }

  /** A response that the client gets becomes its last. */
  lemma AnsweredNow(es: seq<Event>, f: nat, status: Option<int>)
    ensures var more := es + [Response(f, status)]; LastAnswer(more, |es|, f) && more[|es|].status == status
  {
  }

  lemma ResponseHistory(es: seq<Event>, s: State, f: nat, status: Option<int>)
    requires Enabled(s, Response(f, status)) && FetchHistory(es, s.fetchers[f], f) && Bounded(s, s.fetchers[f])
    ensures FetchHistory(es + [Response(f, status)], After(s, Response(f, status)).fetchers[f], f)
  {
    var x := s.fetchers[f];
    FirstKept(es, Response(f, status), x, f);
    AnsweredNow(es, f, status);
    hide LastAnswer, SentAt;
  }

  lemma ResumeHistory(es: seq<Event>, s: State, f: nat)
    requires Enabled(s, Resume(f)) && FetchHistory(es, s.fetchers[f], f) && Bounded(s, s.fetchers[f])
    ensures FetchHistory(es + [Resume(f)], After(s, Resume(f)).fetchers[f], f)
  {
    var x := s.fetchers[f];
    var y := After(s, Resume(f)).fetchers[f];
    FetchKept(es, Resume(f), x, f);
    assert y.first == x.first && (x.sent != [] ==> y.sent != [] && y.sent[0] == x.sent[0]);
    hide LastAnswer, SentAt;
  }

  lemma CallHistory(es: seq<Event>, s: State, now: real)
    requires FetchesHistory(es, s) && CacheHistory(es, s)
    ensures FetchHistory(es + [Fetch(now)], After(s, Fetch(now)).fetchers[|s.fetchers|], |s.fetchers|)
  {
    var e, f := Fetch(now), |s.fetchers|;
    var more, x := es + [e], After(s, e).fetchers[f];
    assert forall n :: 0 <= n < |es| ==> more[n] == es[n] && !Answered(more, n, f);
    if x.first.None? {
      var m: nat :| LastBefore(es, m, |es|) && CachedFrom(es, s, m);
      LastBeforeMore(es, e, m, |es|);
      FetchesMore(es, e, |es|);
      assert SentAt(more, f, x.sent[0], |es|, m);
    }
  }

  lemma FetchesStep(es: seq<Event>, s: State, e: Event)
    requires Inv(s) && FetchesHistory(es, s) && CacheHistory(es, s) && Enabled(s, e)
    ensures FetchesHistory(es + [e], After(s, e))
  {
    var more, t := es + [e], After(s, e);
    FetchesMore(es, e, |es|);
    assert e.Response? ==> e.fetcher < |s.fetchers|;
    FetcherCount(s, e);
    assert |t.fetchers| == Fetches(more, |more|);
    hide After, Enabled, CacheHistory, FetchHistory, Chained, ForcedFetch, Bounded;
    forall f | 0 <= f < |t.fetchers|
      ensures FetchHistory(more, t.fetchers[f], f)
    {
      if f == |s.fetchers| {
        CallHistory(es, s, e.now);
      } else if Moves(e, f) {
        if e.Resume? { ResumeHistory(es, s, f); } else { ResponseHistory(es, s, f, e.status); }
      } else {
        OthersStay(s, e, f);
        FetchKept(es, e, s.fetchers[f], f);
      }
    }
  }

  // ---------- One more event, for what is still good ----------

  lemma FreshMore(es: seq<Event>, e: Event, skew: real, m: nat, now: real)
    requires m < |es|
    ensures Fresh(es + [e], skew, m, now) <==> Fresh(es, skew, m, now)
  {
    var more := es + [e];
    assert more[m] == es[m];
    if Success(es[m]) {
      assert forall j :: 0 <= j < m ==> more[j] == es[j] && Started(more, j, es[m].job) == Started(es, j, es[m].job);
    }
  }

  lemma LastBeforeSame(es: seq<Event>, e: Event, m: nat, k: nat)
    requires k <= |es|
    ensures LastBefore(es + [e], m, k) <==> LastBefore(es, m, k)
  {
    var more := es + [e];
    assert forall n :: 0 <= n < k ==> more[n] == es[n];
  }

  lemma ServableMore(es: seq<Event>, e: Event, skew: real, k: nat, now: real)
    requires k <= |es|
    ensures Servable(es + [e], skew, k, now) <==> Servable(es, skew, k, now)
  {
    hide LastBefore, Fresh;
    forall m: nat
      ensures LastBefore(es + [e], m, k) && Fresh(es + [e], skew, m, now) <==> LastBefore(es, m, k) && Fresh(es, skew, m, now)
    {
      LastBeforeSame(es, e, m, k);
      if LastBefore(es, m, k) {
        LastIsBefore(es, m, k);
        FreshMore(es, e, skew, m, now);
      }
    }
  }

  lemma LastIsBefore(es: seq<Event>, m: nat, k: nat)
    requires LastBefore(es, m, k)
    ensures m < k <= |es| && Success(es[m])
  {
  }

  lemma LastIsOne(es: seq<Event>, m: nat, n: nat, k: nat)
    requires LastBefore(es, m, k) && LastBefore(es, n, k)
    ensures m == n
  {
  }

  /** The client's own test of its cache decides whether the last token is still good. */
  lemma UsableIff(es: seq<Event>, s: State, now: real)
    requires CacheHistory(es, s)
    ensures Usable(s, now) <==> Servable(es, s.skew, |es|, now)
  {
    if s.accessToken.Some? {
      var m: nat :| LastBefore(es, m, |es|) && CachedFrom(es, s, m);
      FreshIff(es, s, m, now);
      hide Fresh, CachedFrom;
      forall n: nat | LastBefore(es, n, |es|)
        ensures n == m
      {
        LastIsOne(es, m, n, |es|);
      }
    }
  }

  lemma FreshIff(es: seq<Event>, s: State, m: nat, now: real)
    requires CachedFrom(es, s, m)
    ensures Fresh(es, s.skew, m, now) <==> s.expiresAt - s.skew > now
  {
    var k: nat :| k < m && Started(es, k, es[m].job);
    assert s.expiresAt == es[k].now + es[m].answer.value.1;
  }

  lemma SkewKept(s: State, e: Event)
    requires Enabled(s, e)
    ensures After(s, e).skew == s.skew
  {
  }

  /** Once a job has started, whether it asks the endpoint is settled. */
  lemma StartedKept(s: State, e: Event, i: nat)
    requires Enabled(s, e) && i < |s.jobs| && !s.jobs[i].status.Queued?
    ensures i < |After(s, e).jobs| && After(s, e).jobs[i].fetched == s.jobs[i].fetched && After(s, e).jobs[i].force == s.jobs[i].force
  {
  }

  lemma StartDecides(s: State, i: nat, now: real)
    requires Enabled(s, Start(i, now)) && ForcedFetch(s)
    ensures var job := After(s, Start(i, now)).jobs[i];
      job.fetched <==> job.force || !Usable(s, now)
  {
  }

  lemma StartsDecideStep(es: seq<Event>, s: State, e: Event)
    requires Inv(s) && StartsShow(es, s) && StartsDecide(es, s) && CacheHistory(es, s) && Enabled(s, e)
    ensures StartsDecide(es + [e], After(s, e))
  {
    var more, t := es + [e], After(s, e);
    assert e.Start? ==> e.job < |t.jobs|;
    hide After, Enabled, CacheHistory, Servable, Chained, Bounded, ForcedFetch;
    SkewKept(s, e);
    forall k | 0 <= k < |more| && more[k].Start?
      ensures var i := more[k].job;
        i < |t.jobs| && (t.jobs[i].fetched <==> t.jobs[i].force || !Servable(more, t.skew, k, more[k].now))
    {
      ServableMore(es, e, s.skew, k, more[k].now);
      if k < |es| {
        assert more[k] == es[k];
        StartedKept(s, e, es[k].job);
      } else {
        UsableIff(es, s, e.now);
        StartDecides(s, e.job, e.now);
      }
    }
  }

  lemma FirstStays(s: State, e: Event, f: nat)
    requires Enabled(s, e) && f < |s.fetchers|
    ensures f < |After(s, e).fetchers| && After(s, e).fetchers[f].first == s.fetchers[f].first
  {
  }

  lemma CallDecides(s: State, now: real)
    ensures var t := After(s, Fetch(now));
      |t.fetchers| == |s.fetchers| + 1 && (t.fetchers[|s.fetchers|].first.None? <==> Usable(s, now))
  {
  }

  lemma CallsDecideStep(es: seq<Event>, s: State, e: Event)
    requires |s.fetchers| == Fetches(es, |es|) && CallsDecide(es, s) && CacheHistory(es, s) && Enabled(s, e)
    ensures CallsDecide(es + [e], After(s, e))
  {
    hide After, Enabled, CacheHistory, Servable;
    var more, t := es + [e], After(s, e);
    SkewKept(s, e);
    forall k | 0 <= k < |more| && more[k].Fetch?
      ensures var f := Fetches(more, k);
        f < |t.fetchers| && (t.fetchers[f].first.None? <==> Servable(more, t.skew, k, more[k].now))
    {
      ServableMore(es, e, s.skew, k, more[k].now);
      FetchesMore(es, e, k);
      if k < |es| {
        assert more[k] == es[k];
        FirstStays(s, e, Fetches(es, k));
      } else {
        UsableIff(es, s, e.now);
        CallDecides(s, e.now);
      }
    }
  }

  // ---------- Every run ----------

  lemma StepHistory(es: seq<Event>, s: State, e: Event)
    requires History(es, s) && Enabled(s, e)
    ensures History(es + [e], After(s, e))
  {
    assert |s.fetchers| == Fetches(es, |es|);
    hide After, Enabled, RepliesSettle, StartsShow, CacheHistory, JobsHistory, FetchesHistory, StartsDecide, CallsDecide, Chained, Bounded;
    StepInv(s, e);
    RepliesStep(es, s, e);
    StartsStep(es, s, e);
    CacheStep(es, s, e);
    JobsStep(es, s, e);
    FetchesStep(es, s, e);
    StartsDecideStep(es, s, e);
    CallsDecideStep(es, s, e);
  }

  lemma {:induction false} RunHistory(past: seq<Event>, s: State, es: seq<Event>)
    requires History(past, s) && Feasible(s, es)
    ensures History(past + es, Run(s, es))
    decreases |es|
  {
    hide History;
    if es == [] {
      assert past + es == past;
    } else {
      StepHistory(past, s, es[0]);
      RunHistory(past + [es[0]], After(s, es[0]), es[1..]);
      assert past + [es[0]] + es[1..] == past + es;
    }
  }

  lemma NewHistory(skew: real)
    ensures History([], NewClient(skew))
  {
  }

  lemma ClientHistory(skew: real, es: seq<Event>)
    requires Feasible(NewClient(skew), es)
    ensures History(es, Run(NewClient(skew), es))
  {
    hide *;
    NewHistory(skew);
    RunHistory([], NewClient(skew), es);
    assert [] + es == es;
  }

  /** Whatever the interleaving, the cache holds the token of the last successful reply, and its
      expiry is the time that fetch started plus the lifetime the reply gave. */
  lemma CacheIsLastReply(skew: real, es: seq<Event>, m: nat, k: nat)
    requires Feasible(NewClient(skew), es) && LastBefore(es, m, |es|) && Started(es, k, es[m].job)
    ensures var s := Run(NewClient(skew), es);
      s.accessToken == Some(es[m].answer.value.0) && s.expiresAt == es[k].now + es[m].answer.value.1
  {
    ClientHistory(skew, es);
    var s := Run(NewClient(skew), es);
    hide Run, Feasible, Inv;
    var n: nat :| LastBefore(es, n, |es|) && CachedFrom(es, s, n);
    assert n == m;
  }

  /** Every reply answers a job that had started, and the cache is empty until one succeeds. */
  lemma NoReplyNoToken(skew: real, es: seq<Event>)
    requires Feasible(NewClient(skew), es)
    ensures Run(NewClient(skew), es).accessToken.Some? <==> exists m :: 0 <= m < |es| && Success(es[m])
    ensures Run(NewClient(skew), es).accessToken.Some? ==>
      exists m: nat, k: nat :: LastBefore(es, m, |es|) && k < m && Started(es, k, es[m].job)
  {
    ClientHistory(skew, es);
    var s := Run(NewClient(skew), es);
    hide Run, Feasible, Inv;
    if s.accessToken.Some? {
      var m: nat :| LastBefore(es, m, |es|) && CachedFrom(es, s, m);
      var k: nat :| k < m && Started(es, k, es[m].job);
    }
  }

  /** What a caller receives. A job that made a request settles with the answer to its own request;
      one that did not settles with the token of the last successful reply before it started, and
      never with a failure. */
  lemma CallersGetTheReply(skew: real, es: seq<Event>, i: nat)
    requires Feasible(NewClient(skew), es) && i < |Run(NewClient(skew), es).jobs|
    requires Run(NewClient(skew), es).jobs[i].status.Done?
    ensures var job := Run(NewClient(skew), es).jobs[i]; var outcome := job.status.outcome;
      if job.fetched then
        exists k :: 0 <= k < |es| && Replied(es, k, i)
                    && (if es[k].answer.Some? then outcome == Bearer(es[k].answer.value.0) else outcome == Rejected)
      else
        outcome.Bearer? && exists k: nat, m: nat ::
          Started(es, k, i) && LastBefore(es, m, k) && outcome.token == es[m].answer.value.0
  {
    ClientHistory(skew, es);
    var s := Run(NewClient(skew), es);
    var job := s.jobs[i];
    assert JobHistory(es, job, i);
    hide Run, Feasible, Inv;
    if job.fetched {
      var k :| 0 <= k < |es| && Replied(es, k, i) && Settles(es[k].answer) == job.status.outcome;
    } else {
      var k: nat, m: nat :| ServedAt(es, i, job.status.outcome.token, k, m);
    }
  }

  /** And every reply reaches the job it answers. */
  lemma RepliesReachTheJob(skew: real, es: seq<Event>, k: nat)
    requires Feasible(NewClient(skew), es) && k < |es| && es[k].Reply?
    ensures var s := Run(NewClient(skew), es);
      && es[k].job < |s.jobs| && s.jobs[es[k].job].fetched
      && s.jobs[es[k].job].status == Done(if es[k].answer.Some? then Bearer(es[k].answer.value.0) else Rejected)
  {
    ClientHistory(skew, es);
    hide Run, Feasible, Inv;
  }

  /** A fetch that awaited no token sent the one cached when it was called: that of the last
      successful reply before the call. */
  lemma CachedTokenIsSent(skew: real, es: seq<Event>, f: nat)
    requires Feasible(NewClient(skew), es) && f < |Run(NewClient(skew), es).fetchers|
    requires Run(NewClient(skew), es).fetchers[f].first.None?
    ensures var x := Run(NewClient(skew), es).fetchers[f];
      x.sent != [] && exists k: nat, m: nat :: Called(es, k, f) && LastBefore(es, m, k) && x.sent[0] == es[m].answer.value.0
  {
    ClientHistory(skew, es);
    var x := Run(NewClient(skew), es).fetchers[f];
    assert FetchHistory(es, x, f);
    hide Run, Feasible, Inv;
    var k: nat, m: nat :| SentAt(es, f, x.sent[0], k, m);
  }

  /** How a fetch ends: with the status of its last response, which is not a 401 unless the retry got
      it; or with a failure, when the token it awaited last was refused. */
  lemma FinishedWithLastResponse(skew: real, es: seq<Event>, f: nat)
    requires Feasible(NewClient(skew), es) && f < |Run(NewClient(skew), es).fetchers|
    requires Run(NewClient(skew), es).fetchers[f].phase.Finished?
    ensures var s := Run(NewClient(skew), es); var x := s.fetchers[f];
      if |x.sent| == 1 + |x.forced| then
        exists n: nat :: LastAnswer(es, n, f) && es[n].status == x.phase.response
                         && (x.forced == [] ==> x.phase.response != Some(UNAUTHORIZED))
      else
        x.phase.response.None? && Failed(s, x)
  {
    ClientHistory(skew, es);
    var s := Run(NewClient(skew), es);
    assert FetchHistory(es, s.fetchers[f], f) && Bounded(s, s.fetchers[f]);
    hide Run, Feasible, Inv;
  }

  lemma {:induction false} RunSkew(s: State, es: seq<Event>)
    requires Feasible(s, es)
    ensures Run(s, es).skew == s.skew
    decreases |es|
  {
    if es != [] {
      SkewKept(s, es[0]);
      hide After;
      RunSkew(After(s, es[0]), es[1..]);
    }
  }

  /** When the endpoint is asked: a job that starts at event `k` makes a request exactly when it is
      forced, or no token was received before, or the last one received is within the skew of its
      expiry by then. */
  lemma RequestsExactlyWhenNeeded(skew: real, es: seq<Event>, k: nat)
    requires Feasible(NewClient(skew), es) && k < |es| && es[k].Start?
    ensures var s := Run(NewClient(skew), es);
      && es[k].job < |s.jobs|
      && (s.jobs[es[k].job].fetched <==> s.jobs[es[k].job].force || !Servable(es, skew, k, es[k].now))
  {
    ClientHistory(skew, es);
    RunSkew(NewClient(skew), es);
    hide Run, Feasible, Inv, Servable;
  }

  /** And a fetch called at event `k` waits for no token exactly when the last one received is still
      good by then. */
  lemma SendsAtOnceExactlyWhenGood(skew: real, es: seq<Event>, k: nat, f: nat)
    requires Feasible(NewClient(skew), es) && Called(es, k, f)
    ensures var s := Run(NewClient(skew), es);
      f < |s.fetchers| && (s.fetchers[f].first.None? <==> Servable(es, skew, k, es[k].now))
  {
    ClientHistory(skew, es);
    RunSkew(NewClient(skew), es);
    hide Run, Feasible, Inv, Servable;
  }
}
