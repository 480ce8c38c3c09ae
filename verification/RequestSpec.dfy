/** What one PreRequest call does to the tracker and to the loader's cache
    (internal/plugins/modelloader/loader.go), as a function on values. */
module RequestSpec {
  import opened Wrappers
  import opened DedupSpec
  import opened PollSpec
  import opened LoadKey

  /** The cache keys the tracker's observer invalidates when `model` is unmarked on `pod`. */
  function Dropped(s: TrackerState, pod: string, model: string): set<string>
  {
    if pod == "" || model == "" || pod !in s.loaded then {}
    else {FlatKey(if pod in s.podIP && s.podIP[pod] != "" then s.podIP[pod] else pod, model)}
  }

  /** How a wait for somebody else's load ends. */
  datatype Wait = Published(failed: bool) | Cancelled

  /** What a request learns from outside: the pod's model list (None: the query failed), whether its
      own load ends in a positive status check, and how its waits end if it has to wait. */
  datatype RequestEnv = RequestEnv(early: Wait, answer: Option<seq<Entry>>, late: Wait, loads: bool)

  datatype Replica = Replica(tracker: TrackerState, cache: set<string>)

  ghost predicate AnsweredWarm(env: RequestEnv, model: string)
  {
    env.answer.Some? && FirstMatchWarm(env.answer.value, model)
  }

  /** The request is over after the first check: it joined a load and did not see it fail. */
  predicate Joined(inFlight: bool, env: RequestEnv)
  {
    inFlight && env.early != Published(true)
  }

  predicate LoadWorked(inFlight: bool, env: RequestEnv)
  {
    if inFlight then env.late == Published(false) else env.loads
  }

  ghost function Request(s: Replica, inFlight: bool, podIP: string, model: string, env: RequestEnv): Replica
  {
    if podIP == "" || model == "" then s
    else if FlatKey(podIP, model) in s.cache then s.(tracker := MarkLoaded(s.tracker, podIP, model))
    else AfterCheck(s, inFlight, podIP, model, env)
  }

  /** What a request does that is not served from the cache. */
  ghost function AfterCheck(s: Replica, inFlight: bool, podIP: string, model: string, env: RequestEnv): Replica
  {
    var key := FlatKey(podIP, model);
    var marked := MarkLoaded(s.tracker, podIP, model);
    if Joined(inFlight, env) then s
    else if AnsweredWarm(env, model) then Replica(marked, s.cache + {key})
    else if LoadWorked(inFlight, env) then Replica(marked, if inFlight then s.cache else s.cache + {key})
    else Replica(MarkUnloaded(marked, podIP, model), s.cache - Dropped(marked, podIP, model))
  }

  /** The tracker and cache after a pass, the observer included. */
  ghost function PassAndNotify(s: Replica, grace: int, env: PassEnv): Replica
  {
    Replica(Pass(s.tracker, grace, env),
            match Target(s.tracker, grace, env)
            case None => s.cache
            case Some(c) => s.cache - Dropped(s.tracker, c.pod, c.model))
  }
}
