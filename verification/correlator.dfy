/**
 * The request/reply correlator of one actor instance: the `requests` map
 * from an expected response class to the handle of its timeout, armed when a
 * request goes out and cancelled when a message of exactly that class is
 * received.
 */
module Correlator {
  import opened Base
  import opened Types
  import opened Messages
  import opened Scheduling

  type Requests = map<TypeId, TimerId>

  /**
   * Every handle in the map names a timer the scheduler armed, and no two
   * classes share a handle.
   */
  predicate Tracked(reqs: Requests, s: Scheduler) {
    && (forall k | k in reqs :: reqs[k] < |s.timers|)
    && (forall k1, k2 | k1 in reqs && k2 in reqs && k1 != k2 :: reqs[k1] != reqs[k2])
  }

  /**
   * `startWaitingFor`: arms a one-shot TimeoutMsg carrying `taskInfo` to the
   * actor itself and records its handle under `response`. An earlier handle
   * for the same class is overwritten, not cancelled.
   */
  function StartWaitingFor(reqs: Requests, s: Scheduler, self: ActorId, response: TypeId,
                           timeout: Duration, taskInfo: int): (r: (Requests, Scheduler))
    ensures r.0.Keys == reqs.Keys + {response}
    ensures r.0[response] == |s.timers| && IsPending(r.1, r.0[response])
    ensures r.1.timers[r.0[response]] == Timer(timeout, None, Some(self), TimeoutMsg(taskInfo), Some(self), Pending)
    ensures forall k | k in reqs && k != response :: r.0[k] == reqs[k]
    ensures r.1.timers[..|s.timers|] == s.timers
    ensures Tracked(reqs, s) ==> Tracked(r.0, r.1)
  {
    var (s', id) := Arm(s, timeout, None, Some(self), TimeoutMsg(taskInfo), Some(self));
    (reqs[response := id], s')
  }

  /**
   * `doneWaitingFor`: removes the entry keyed by exactly `cls` and cancels its
   * timer; other entries stay, and an absent key changes nothing.
   */
  function DoneWaitingFor(reqs: Requests, s: Scheduler, cls: TypeId): (r: (Requests, Scheduler))
    ensures r.0.Keys == reqs.Keys - {cls}
    ensures forall k | k in r.0 :: r.0[k] == reqs[k]
    ensures cls in reqs ==> r.1 == Cancel(s, reqs[cls]) && !IsPending(r.1, reqs[cls])
    ensures cls !in reqs ==> r == (reqs, s)
    ensures Tracked(reqs, s) ==> Tracked(r.0, r.1)
  {
    if cls in reqs then (reqs - {cls}, Cancel(s, reqs[cls])) else (reqs, s)
  }

  /** A response of the requested class, received after the request, silences its timeout for good. */
  lemma ResponseSilencesTimeout(reqs: Requests, s: Scheduler, self: ActorId, response: TypeId,
                                timeout: Duration, taskInfo: int, n: nat)
    ensures var (reqs1, s1) := StartWaitingFor(reqs, s, self, response, timeout, taskInfo);
      var (reqs2, s2) := DoneWaitingFor(reqs1, s1, response);
      && response !in reqs2
      && IsCancelled(s2, reqs1[response])
      && FireTimes(s2, reqs1[response], n).1 == 0
  {
    var (reqs1, s1) := StartWaitingFor(reqs, s, self, response, timeout, taskInfo);
    var (reqs2, s2) := DoneWaitingFor(reqs1, s1, response);
    FireTimesOfIdle(s2, reqs1[response], n);
  }

  /**
   * Without a response the timeout fires exactly once, however often the
   * runtime fires the timer, and delivers the request's task info to the actor.
   */
  lemma NoResponseOneTimeout(reqs: Requests, s: Scheduler, self: ActorId, response: TypeId,
                             timeout: Duration, taskInfo: int, n: nat)
    requires n >= 1
    ensures var (reqs1, s1) := StartWaitingFor(reqs, s, self, response, timeout, taskInfo);
      && Expire(s1, reqs1[response]).1 == Some(Delivery(Some(self), TimeoutMsg(taskInfo), Some(self)))
      && FireTimes(s1, reqs1[response], n).1 == 1
  {
    var (reqs1, s1) := StartWaitingFor(reqs, s, self, response, timeout, taskInfo);
    var id := reqs1[response];
    var s2 := Expire(s1, id).0;
    assert !IsPending(s2, id);
    FireTimesOfIdle(s2, id, n - 1);
  }

  /**
   * Only the exact class clears an entry: a message of another class (a
   * subtype of the response, or the TimeoutMsg itself) leaves it and its
   * timer as they were.
   */
  lemma OtherClassKeepsEntry(reqs: Requests, s: Scheduler, response: TypeId, cls: TypeId)
    requires response in reqs && cls != response && Tracked(reqs, s)
    ensures var (reqs', s') := DoneWaitingFor(reqs, s, cls);
      && response in reqs' && reqs'[response] == reqs[response]
      && (IsPending(s, reqs[response]) ==> IsPending(s', reqs[response]))
  {
  }

  /**
   * A second request for the same class before the first resolves leaves the
   * first timeout armed: both timers are pending, and only the second is
   * still in the map, so a response cancels the second one alone.
   */
  lemma SupersededTimeoutStaysArmed(reqs: Requests, s: Scheduler, self: ActorId, response: TypeId,
                                    timeout1: Duration, info1: int, timeout2: Duration, info2: int)
    ensures var (reqs1, s1) := StartWaitingFor(reqs, s, self, response, timeout1, info1);
      var (reqs2, s2) := StartWaitingFor(reqs1, s1, self, response, timeout2, info2);
      var (reqs3, s3) := DoneWaitingFor(reqs2, s2, response);
      && IsPending(s2, reqs1[response]) && IsPending(s2, reqs2[response])
      && reqs1[response] != reqs2[response]
      && IsPending(s3, reqs1[response])
      && s3.timers[reqs1[response]].msg == TimeoutMsg(info1)
  {
    var (reqs1, s1) := StartWaitingFor(reqs, s, self, response, timeout1, info1);
    var (reqs2, s2) := StartWaitingFor(reqs1, s1, self, response, timeout2, info2);
    assert s2.timers[reqs1[response]] == s1.timers[reqs1[response]];
  }
}
