// When a node is up, and how many of its jobs are open, read off the events of a run.
module Liveness {
  import opened Prelude
  import opened Tiles
  import opened Coordinator
  import opened CoordinatorRuns
  import PipelineExits

  predicate Joins(env: Environment, e: Event, n: string) { e.Join? && env.nodeIdOf(e.hw) == n }

  /** The event is a heartbeat of the node, with a token for it that has not expired. */
  ghost predicate Beats(env: Environment, e: Event, n: string)
  {
    e.Heartbeat? && e.nodeId == n &&
    exists until :: env.openToken(e.token) == Some(TokenPayload(n, until)) && e.now <= until
  }

  /** When the coordinator takes the node to have been seen. */
  function SeenAt(e: Event): real { if e.Join? then e.now else if e.Heartbeat? then e.seenAt else 0.0 }

  /** The event takes down a node that was last seen then. */
  predicate TakesDown(e: Event, n: string, seen: real)
  {
    e == Revoke(n) || (e.EvictStale? && e.now - seen > 90.0)
  }

  // ---- one event, for one node ----

  lemma StepFiles(env: Environment, s: State, e: Event, n: string)
    requires Sound(s) && Possible(s, e)
    ensures n in Step(env, s, e).revoked <==> n in s.revoked || e == Revoke(n)
    ensures n in Step(env, s, e).tiles <==> n in s.tiles || Joins(env, e, n)
  {
    match e
    case Submit(q, generated, r) => SubmissionKeepsPulse(env, s, q, generated, r, n);
    case _ =>
  }

  /** A join or an accepted heartbeat brings the node up and notes the time; a revocation, or an eviction too long after
      that time, takes it down; nothing else touches it. */
  ghost predicate Pulse(env: Environment, s: State, t: State, e: Event, n: string)
    requires n in s.tiles ==> n in t.tiles
  {
    if Joins(env, e, n) || (Beats(env, e, n) && n in s.tiles && n !in s.revoked)
    then n in t.tiles && t.tiles[n].status == UP && t.tiles[n].lastSeen == SeenAt(e)
    else n in s.tiles ==>
      && t.tiles[n].lastSeen == s.tiles[n].lastSeen
      && (t.tiles[n].status == UP <==> s.tiles[n].status == UP && !TakesDown(e, n, s.tiles[n].lastSeen))
  }

  lemma StepPulse(env: Environment, s: State, e: Event, n: string)
    requires Sound(s) && Possible(s, e)
    ensures n in s.tiles ==> n in Step(env, s, e).tiles
    ensures Pulse(env, s, Step(env, s, e), e, n)
  {
    StepFiles(env, s, e, n);
    match e
    case Submit(q, generated, r) => SubmissionKeepsPulse(env, s, q, generated, r, n);
    case Heartbeat(nodeId, token, now, seenAt) => HeartbeatPulse(env, s, e, n);
    case EvictStale(now) => EvictionPulse(env, s, e, n);
    case Revoke(nodeId) => RevocationPulse(env, s, e, n);
    case Join(hw, start, end, now) => JoinPulse(env, s, e, n);
    case Complete(nodeId) =>
  }

  lemma JoinPulse(env: Environment, s: State, e: Event, n: string)
    requires Sound(s) && e.Join?
    ensures Pulse(env, s, Joined(env, s, e.hw, e.start, e.end, e.now), e, n)
  {
  }

  lemma RevocationPulse(env: Environment, s: State, e: Event, n: string)
    requires Sound(s) && e.Revoke?
    ensures Pulse(env, s, NodeRevoked(s, e.nodeId), e, n)
  {
  }

  lemma HeartbeatPulse(env: Environment, s: State, e: Event, n: string)
    requires Sound(s) && e.Heartbeat?
    ensures Pulse(env, s, Heard(env, s, e.nodeId, e.token, e.now, e.seenAt), e, n)
  {
  }

  lemma EvictionPulse(env: Environment, s: State, e: Event, n: string)
    requires Sound(s) && e.EvictStale?
    ensures Pulse(env, s, Evicted(s, e.now), e, n)
  {
  }

  lemma SubmissionKeepsPulse(env: Environment, s: State, q: Request, generated: string, r: Reading, n: string)
    requires Sound(s)
    ensures
      var t := Dispatch(env, s, q, generated, r).0;
      && t.revoked == s.revoked && t.tiles.Keys == s.tiles.Keys
      && (n in s.tiles ==> t.tiles[n].status == s.tiles[n].status && t.tiles[n].lastSeen == s.tiles[n].lastSeen)
  {
    PipelineExits.DispatchServes(env, s, q, generated, r);
  }

  // ---- over runs ----

  ghost predicate RevokedBy(events: seq<Event>, k: nat, n: string)
    requires k <= |events|
  {
    exists j :: 0 <= j < k && events[j] == Revoke(n)
  }

  ghost predicate JoinedBy(env: Environment, events: seq<Event>, k: nat, n: string)
    requires k <= |events|
  {
    exists j :: 0 <= j < k && Joins(env, events[j], n)
  }

  /** Event k is a sign of life: a join, or a heartbeat that counts because the node has joined and is not revoked. */
  ghost predicate Sign(env: Environment, events: seq<Event>, k: nat, n: string)
    requires k < |events|
  {
    Joins(env, events[k], n) || (Beats(env, events[k], n) && JoinedBy(env, events, k, n) && !RevokedBy(events, k, n))
  }

  ghost predicate LastSign(env: Environment, events: seq<Event>, k: nat, n: string)
  {
    k < |events| && Sign(env, events, k, n) && forall j :: k < j < |events| ==> !Sign(env, events, j, n)
  }

  /** Nothing since event k has taken the node down. */
  ghost predicate Undisturbed(events: seq<Event>, k: nat, n: string)
    requires k < |events|
  {
    forall j :: k < j < |events| ==> !TakesDown(events[j], n, SeenAt(events[k]))
  }

  lemma SamePast(env: Environment, past: seq<Event>, e: Event, k: nat, n: string)
    requires k <= |past|
    ensures RevokedBy(past + [e], k, n) == RevokedBy(past, k, n)
    ensures JoinedBy(env, past + [e], k, n) == JoinedBy(env, past, k, n)
    ensures k < |past| ==> Sign(env, past + [e], k, n) == Sign(env, past, k, n)
  {
    var events := past + [e];
    assert forall j :: 0 <= j < k ==> events[j] == past[j];
  }

  lemma OneMoreEvent(env: Environment, past: seq<Event>, e: Event, n: string)
    ensures RevokedBy(past + [e], |past| + 1, n) <==> RevokedBy(past, |past|, n) || e == Revoke(n)
    ensures JoinedBy(env, past + [e], |past| + 1, n) <==> JoinedBy(env, past, |past|, n) || Joins(env, e, n)
  {
    var events := past + [e];
    assert events[|past|] == e;
    if j :| 0 <= j < |past| && past[j] == Revoke(n) { assert events[j] == Revoke(n); }
    if j :| 0 <= j < |past| && Joins(env, past[j], n) { assert Joins(env, events[j], n); }
  }

  /** A sign of life among one more event. */
  lemma NextSign(env: Environment, past: seq<Event>, e: Event, k: nat, n: string)
    ensures Sign(env, past + [e], |past|, n) <==>
      Joins(env, e, n) || (Beats(env, e, n) && JoinedBy(env, past, |past|, n) && !RevokedBy(past, |past|, n))
    ensures Sign(env, past + [e], |past|, n) ==> LastSign(env, past + [e], |past|, n)
    ensures !Sign(env, past + [e], |past|, n) && LastSign(env, past, k, n) ==>
      && LastSign(env, past + [e], k, n)
      && (Undisturbed(past + [e], k, n) <==> Undisturbed(past, k, n) && !TakesDown(e, n, SeenAt(past[k])))
  {
    SamePast(env, past, e, |past|, n);
    forall j: nat | j < |past| ensures Sign(env, past + [e], j, n) == Sign(env, past, j, n) {
      SamePast(env, past, e, j, n);
    }
    if LastSign(env, past, k, n) { NextDisturbed(past, e, k, n); }
  }

  lemma NextDisturbed(past: seq<Event>, e: Event, k: nat, n: string)
    requires k < |past|
    ensures Undisturbed(past + [e], k, n) <==> Undisturbed(past, k, n) && !TakesDown(e, n, SeenAt(past[k]))
  {
    var events := past + [e];
    assert events[|past|] == e && forall j :: 0 <= j < |past| ==> events[j] == past[j];
    if Undisturbed(events, k, n) {
      forall j | k < j < |past| ensures !TakesDown(past[j], n, SeenAt(past[k])) {
        assert !TakesDown(events[j], n, SeenAt(events[k]));
      }
      assert !TakesDown(events[|past|], n, SeenAt(events[k]));
    }
  }

  lemma LastEvent(env: Environment, s: State, events: seq<Event>)
    requires Sound(s) && Legal(env, s, events) && events != []
    ensures
      var past, e := events[..|events| - 1], events[|events| - 1];
      && Legal(env, s, past) && Possible(After(env, s, past), e)
      && After(env, s, events) == Step(env, After(env, s, past), e)
  {
    var past, e := events[..|events| - 1], events[|events| - 1];
    assert events == past + [e];
    LegalSplits(env, s, past, [e]);
    assert [e][1..] == [];
  }

  /** Who is on file, who is revoked, and since when a node has been up, in the state after a run. */
  lemma {:induction false} FilesAfter(env: Environment, totalLayers: int, events: seq<Event>, n: string)
    returns (k: nat)
    requires Legal(env, Initial(totalLayers), events)
    ensures
      var s := After(env, Initial(totalLayers), events);
      && (n in s.revoked <==> RevokedBy(events, |events|, n))
      && (n in s.tiles <==> JoinedBy(env, events, |events|, n))
      && (n in s.tiles ==>
          && LastSign(env, events, k, n) && s.tiles[n].lastSeen == SeenAt(events[k])
          && (s.tiles[n].status == UP <==> Undisturbed(events, k, n)))
    decreases |events|
  {
    k := 0;
    if events != [] {
      var past, e := events[..|events| - 1], events[|events| - 1];
      assert events == past + [e];
      LastEvent(env, Initial(totalLayers), events);
      var s := After(env, Initial(totalLayers), past);
      k := FilesAfter(env, totalLayers, past, n);
      StepFiles(env, s, e, n);
      StepPulse(env, s, e, n);
      OneMoreEvent(env, past, e, n);
      NextSign(env, past, e, k, n);
      if Sign(env, events, |past|, n) { k := |past|; }
    }
  }

  /** A node is up after a run exactly when since its last sign of life, which is its last join or the last heartbeat
      that counted, it has not been revoked, and no eviction ran more than 90 seconds after that sign. */
  lemma UpIff(env: Environment, totalLayers: int, events: seq<Event>, n: string)
    requires Legal(env, Initial(totalLayers), events)
    ensures
      var s := After(env, Initial(totalLayers), events);
      n in s.tiles && s.tiles[n].status == UP <==>
        exists k: nat :: LastSign(env, events, k, n) && Undisturbed(events, k, n)
  {
    var k := FilesAfter(env, totalLayers, events, n);
    if j: nat :| LastSign(env, events, j, n) && Undisturbed(events, j, n) {
      assert JoinedBy(env, events, |events|, n) by {
        if !Joins(env, events[j], n) {
          var i :| 0 <= i < j && Joins(env, events[i], n);
          assert Joins(env, events[i], n);
        }
      }
      assert j == k;
    }
  }

  // ---- open jobs ----

  /** The event completes a job that the node has open. */
  predicate Finishes(s: State, e: Event, n: string)
    requires n in s.connections
  {
    e == Complete(n) && s.connections[n] > 0
  }

  /** The jobs ever given to a node less those open are the jobs it has finished. */
  function Done(s: State, n: string): int
    requires n in s.tiles && n in s.connections
  {
    s.tiles[n].totalJobs - s.connections[n]
  }

  lemma OnFile(s: State, n: string)
    requires Sound(s)
    ensures n in s.tiles <==> n in s.connections
  {
  }

  lemma StepOpens(env: Environment, s: State, e: Event, n: string)
    requires Sound(s) && Possible(s, e) && n in s.tiles && n in s.connections && s.connections[n] >= 0
    requires !Joins(env, e, n)
    ensures
      var t := Step(env, s, e);
      && n in t.tiles && n in t.connections && t.connections[n] >= 0
      && Done(t, n) == Done(s, n) + if Finishes(s, e, n) then 1 else 0
  {
    StepFiles(env, s, e, n);
    OnFile(Step(env, s, e), n);
    match e
    case Submit(q, generated, r) => SubmissionOpens(env, s, q, generated, r, n);
    case Complete(nodeId) =>
    case Join(_, _, _, _) =>
    case _ => QuietKeepsCounters(env, s, e);
  }

  lemma SubmissionOpens(env: Environment, s: State, q: Request, generated: string, r: Reading, n: string)
    requires Sound(s) && n in s.tiles && n in s.connections && s.connections[n] >= 0
    ensures
      var t := Dispatch(env, s, q, generated, r).0;
      n in t.tiles && n in t.connections && t.connections[n] >= 0 && Done(t, n) == Done(s, n)
  {
    var (t, o) := Dispatch(env, s, q, generated, r);
    PipelineExits.DispatchServes(env, s, q, generated, r);
    if o.Dispatched? { PipelineExits.DispatchedExactly(env, s, q, generated, r, t, o); }
  }

  /** How many events of the run complete a job that the node has open. */
  ghost function Finished(env: Environment, s: State, events: seq<Event>, n: string): nat
    requires Sound(s) && Legal(env, s, events) && n in s.tiles && n in s.connections
    decreases |events|
  {
    if events == [] then 0
    else
      var t := Step(env, s, events[0]);
      StepFiles(env, s, events[0], n);
      OnFile(t, n);
      (if Finishes(s, events[0], n) then 1 else 0) + Finished(env, t, events[1..], n)
  }

  /** Until a node joins again, its open jobs are those it was given less those that were completed while it had one
      open; completions that find none open change nothing. */
  lemma {:induction false} OpenJobs(env: Environment, s: State, events: seq<Event>, n: string)
    requires Sound(s) && Legal(env, s, events) && n in s.tiles && n in s.connections && s.connections[n] >= 0
    requires forall i :: 0 <= i < |events| ==> !Joins(env, events[i], n)
    ensures
      var t := After(env, s, events);
      && n in t.tiles && n in t.connections
      && t.connections[n] - s.connections[n] ==
         t.tiles[n].totalJobs - s.tiles[n].totalJobs - Finished(env, s, events, n)
      && t.connections[n] >= 0
    decreases |events|
  {
    if events != [] {
      StepOpens(env, s, events[0], n);
      OpenJobs(env, Step(env, s, events[0]), events[1..], n);
    }
  }
}
