/**
 From a `user.registered` event to its welcome email: the outbox may route an event any number
 of times, each routing enqueues a job, and the queue may deliver a job any number of times.
 */
module WelcomeEmail {
  import opened Prelude
  import opened EmailWorker
  import opened EmailOnce

  /** user-registered.handler.ts: which events it supports, and the key of the job it enqueues. */
  predicate Supports(eventName: string) {
    eventName == "user.registered"
  }

  function WelcomeKey(eventId: string): string {
    "user-registered:" + eventId + ":welcome"
  }

  /** Different events have different keys. */
  lemma WelcomeKeyIsInjective(a: string, b: string)
    ensures WelcomeKey(a) == WelcomeKey(b) <==> a == b
  {
    if WelcomeKey(a) == WelcomeKey(b) {
      var prefix, suffix := "user-registered:", ":welcome";
      assert |a| == |b|;
      assert a == WelcomeKey(a)[|prefix|..|prefix| + |a|];
      assert b == WelcomeKey(b)[|prefix|..|prefix| + |b|];
    }
  }

  /** Jobs enqueued so far, by event, and for every `process` call the event its job came from. */
  datatype Pipeline = Pipeline(mail: EmailWorker.State, jobs: seq<string>, origins: seq<Option<string>>)

  datatype Action =
    | Route(eventName: string, eventId: string)
    | DeliverJob(job: nat)
    | Mail(step: EmailWorker.Action)

  const START := Pipeline(INIT, [], [])

  predicate CanStep(s: Pipeline, a: Action) {
    match a
    case Route(_, _) => true
    case DeliverJob(j) => j < |s.jobs|
    case Mail(step) => Enabled(s.mail, step)
  }

  /** Mail steps are those of the worker; a delivery of any other job has no event. */
  function Step(s: Pipeline, a: Action, o: Options): Pipeline
    requires CanStep(s, a)
  {
    match a
    case Route(name, id) => if Supports(name) then s.(jobs := s.jobs + [id]) else s
    case DeliverJob(j) =>
      s.(mail := Apply(s.mail, Deliver(Some(WelcomeKey(s.jobs[j])), true), o), origins := s.origins + [Some(s.jobs[j])])
    case Mail(step) =>
      s.(mail := Apply(s.mail, step, o), origins := if step.Deliver? then s.origins + [None] else s.origins)
  }

  /** What a pipeline step asks of the mail worker. */
  function MailSteps(s: Pipeline, a: Action): seq<EmailWorker.Action>
    requires CanStep(s, a)
  {
    match a
    case Route(_, _) => []
    case DeliverJob(j) => [Deliver(Some(WelcomeKey(s.jobs[j])), true)]
    case Mail(step) => [step]
  }

  predicate CalmPipeline(s: Pipeline, acts: seq<Action>, o: Options)
    decreases |acts|
  {
    Timely(s.mail, o) &&
    (acts == [] ||
     (CanStep(s, acts[0]) && (acts[0].Mail? ==> Calm(acts[0].step)) && CalmPipeline(Step(s, acts[0], o), acts[1..], o)))
  }

  function Run(s: Pipeline, acts: seq<Action>, o: Options): Pipeline
    requires CalmPipeline(s, acts, o)
    decreases |acts|
  {
    if acts == [] then s else Run(Step(s, acts[0], o), acts[1..], o)
  }

  /** Calls of a job carry the key of the job's event. */
  predicate OriginsMatch(s: Pipeline) {
    |s.origins| == |s.mail.calls| &&
    forall i | 0 <= i < |s.origins| && s.origins[i].Some? :: s.mail.calls[i].key == Some(WelcomeKey(s.origins[i].value))
  }

  /** A run of the pipeline is, for the mail worker, a calm run of its own. */
  lemma {:induction false} PipelineIsMailRun(s: Pipeline, acts: seq<Action>, o: Options)
    returns (steps: seq<EmailWorker.Action>)
    requires CalmPipeline(s, acts, o) && OriginsMatch(s)
    ensures CalmRun(s.mail, steps, o) && Legal(s.mail, steps, o)
    ensures Exec(s.mail, steps, o) == Run(s, acts, o).mail && OriginsMatch(Run(s, acts, o))
    decreases |acts|
  {
    if acts == [] {
      steps := [];
    } else {
      var s' := Step(s, acts[0], o);
      if acts[0].Mail? {
        KeysStay(s.mail, acts[0].step, o);
      }
      var rest := PipelineIsMailRun(s', acts[1..], o);
      steps := MailSteps(s, acts[0]) + rest;
      if acts[0].Route? {
        assert steps == rest;
      } else {
        assert steps[1..] == rest;
      }
    }
  }

  /**
   One welcome email: however often the outbox routes an event and the queue delivers its
   jobs, of two calls for one event that sent, one acquired only after the retention of the
   other's marker. So within the retention time at most one send resolves per event.
   */
  lemma OneWelcomePerRetention(acts: seq<Action>, i: nat, j: nat, eventId: string, o: Options)
    requires CalmPipeline(START, acts, o)
    ensures var s := Run(START, acts, o);
      i < |s.origins| && j < |s.origins| && |s.origins| == |s.mail.calls| && i != j &&
      s.origins[i] == Some(eventId) && s.origins[j] == Some(eventId) &&
      s.mail.calls[i].sentAt.Some? && s.mail.calls[j].sentAt.Some? ==>
        Precedes(s.mail.calls[i], s.mail.calls[j], o) || Precedes(s.mail.calls[j], s.mail.calls[i], o)
    ensures |Run(START, acts, o).origins| == |Run(START, acts, o).mail.calls|
  {
    var steps := PipelineIsMailRun(START, acts, o);
    SendsAreARetentionApart(steps, i, j, o);
  }

  /** Calls for different events never contend for a key. */
  lemma EventsDoNotContend(acts: seq<Action>, i: nat, j: nat, o: Options)
    requires CalmPipeline(START, acts, o)
    ensures var s := Run(START, acts, o);
      i < |s.origins| && j < |s.origins| && |s.origins| == |s.mail.calls| && s.origins[i].Some? &&
        s.origins[j].Some? ==>
        (s.mail.calls[i].key == s.mail.calls[j].key <==> s.origins[i] == s.origins[j])
  {
    var steps := PipelineIsMailRun(START, acts, o);
    var s := Run(START, acts, o);
    if i < |s.origins| && j < |s.origins| && s.origins[i].Some? && s.origins[j].Some? {
      WelcomeKeyIsInjective(s.origins[i].value, s.origins[j].value);
    }
  }

  /** Routing a registration enqueues one job for it and routing any other event none; no mail moves. */
  lemma RoutingEnqueues(s: Pipeline, name: string, eventId: string, o: Options)
    ensures var s' := Step(s, Route(name, eventId), o);
      s'.jobs == s.jobs + (if name == "user.registered" then [eventId] else []) && s'.mail == s.mail
  {
  }

  /** Each delivery of a job is one call of the mail worker under the key of its event, yet to acquire it. */
  lemma DeliveryCallsWorker(s: Pipeline, job: nat, o: Options)
    requires job < |s.jobs|
    ensures var s' := Step(s, DeliverJob(job), o);
      && s'.jobs == s.jobs && s'.mail.keys == s.mail.keys && |s'.mail.calls| == |s.mail.calls| + 1
      && s'.mail.calls[|s.mail.calls|].key == Some("user-registered:" + s.jobs[job] + ":welcome")
      && s'.mail.calls[|s.mail.calls|].pc.Acquiring?
  {
  }
}
