// The relay that makes dispatch idempotent within a time window (ChaskiRelay).
module Relay {
  import opened Prelude

  const TTL_SECONDS: real := 300.0

  type Sightings = map<string, real>

  /** One call: the clock is read for the eviction, and again for the time stamp of a first sighting. */
  datatype Call = Call(id: string, now: real, stamp: real)

  /** What is left after entries older than the window are dropped. */
  function Evict(seen: Sightings, ttl: real, now: real): Sightings
  {
    map k | k in seen && !(now - seen[k] > ttl) :: seen[k]
  }

  function Duplicate(seen: Sightings, ttl: real, c: Call): bool
  {
    c.id in Evict(seen, ttl, c.now)
  }

  function Record(seen: Sightings, ttl: real, c: Call): Sightings
  {
    var kept := Evict(seen, ttl, c.now);
    if c.id in kept then kept else kept[c.id := c.stamp]
  }

  class ChaskiRelay {
    const ttl: real
    var seen: Sightings

    constructor (ttl: real := TTL_SECONDS)
      ensures this.ttl == ttl && seen == map[]
    {
      this.ttl := ttl;
      seen := map[];
    }

    method EvictStale(now: real)
      modifies this
      ensures seen == Evict(old(seen), ttl, now)
    {
      ghost var before := seen;
      var stale := set k | k in seen && now - seen[k] > ttl;
      var todo := stale;
      while todo != {}
        invariant todo <= stale
        invariant seen == before - (stale - todo)
        decreases todo
      {
        var k :| k in todo;
        seen := seen - {k};
        todo := todo - {k};
      }
    }

    method IsDuplicate(c: Call) returns (duplicate: bool)
      modifies this
      ensures duplicate == Duplicate(old(seen), ttl, c)
      ensures seen == Record(old(seen), ttl, c)
    {
      EvictStale(c.now);
      if c.id in seen { return true; }
      seen := seen[c.id := c.stamp];
      return false;
    }
  }

  // ---- runs ----

  /** The clock never goes back. */
  ghost predicate Monotone(calls: seq<Call>)
  {
    && (forall i :: 0 <= i < |calls| ==> calls[i].now <= calls[i].stamp)
    && (forall i, j :: 0 <= i < j < |calls| ==> calls[i].stamp <= calls[j].now)
  }

  function SeenAfter(ttl: real, calls: seq<Call>): Sightings
  {
    if calls == [] then map[] else Record(SeenAfter(ttl, calls[..|calls| - 1]), ttl, calls[|calls| - 1])
  }

  /** The simple form: every sighting is remembered for ever, and compared with the window when asked about. */
  function Remembered(history: Sightings, ttl: real, c: Call): bool
  {
    c.id in history && c.now - history[c.id] <= ttl
  }

  function History(ttl: real, calls: seq<Call>): Sightings
  {
    if calls == [] then map[]
    else
      var before, c := History(ttl, calls[..|calls| - 1]), calls[|calls| - 1];
      if Remembered(before, ttl, c) then before else before[c.id := c.stamp]
  }

  lemma MonotonePrefix(calls: seq<Call>)
    requires Monotone(calls) && calls != []
    ensures Monotone(calls[..|calls| - 1])
  {
  }

  /** The table agrees with the history, except on what lies outside the window. */
  ghost predicate Matches(seen: Sightings, history: Sightings, ttl: real, now: real)
  {
    && (forall k :: k in seen ==> k in history && seen[k] == history[k])
    && (forall k :: k in history && k !in seen ==> now - history[k] > ttl)
  }

  /** Eviction loses only what the window would reject, now and at any later reading of the clock. */
  lemma {:induction false} SeenMatchesHistory(ttl: real, calls: seq<Call>, now: real)
    requires Monotone(calls) && (calls != [] ==> calls[|calls| - 1].stamp <= now)
    ensures Matches(SeenAfter(ttl, calls), History(ttl, calls), ttl, now)
  {
    if calls != [] {
      var c := calls[|calls| - 1];
      MonotonePrefix(calls);
      assert |calls| > 1 ==> calls[|calls| - 2].stamp <= c.now;
      var past := calls[..|calls| - 1];
      SeenMatchesHistory(ttl, past, c.now);
      RecordMatches(ttl, SeenAfter(ttl, past), History(ttl, past), c, now);
    }
  }

  lemma RecordMatches(ttl: real, seen: Sightings, history: Sightings, c: Call, now: real)
    requires Matches(seen, history, ttl, c.now) && c.now <= c.stamp <= now
    ensures
      var next := if Remembered(history, ttl, c) then history else history[c.id := c.stamp];
      Matches(Record(seen, ttl, c), next, ttl, now)
  {
    var kept := Evict(seen, ttl, c.now);
    assert c.id in kept <==> Remembered(history, ttl, c);
  }

  /** The relay with eviction gives the same answers as the one that never forgets. */
  lemma EvictionUnobservable(ttl: real, calls: seq<Call>, c: Call)
    requires Monotone(calls + [c])
    ensures Duplicate(SeenAfter(ttl, calls), ttl, c) <==> Remembered(History(ttl, calls), ttl, c)
  {
    var all := calls + [c];
    assert all[..|all| - 1] == calls;
    MonotonePrefix(all);
    assert calls != [] ==> all[|calls| - 1].stamp <= all[|calls|].now;
    SeenMatchesHistory(ttl, calls, c.now);
  }

  /** Call i of a run is let through. */
  predicate Accepted(ttl: real, calls: seq<Call>, i: nat)
    requires i < |calls|
  {
    !Duplicate(SeenAfter(ttl, calls[..i]), ttl, calls[i])
  }

  /** After an accepted call the history knows the id, with that stamp or a later one. */
  lemma {:induction false} HistoryKeeps(ttl: real, calls: seq<Call>, i: nat)
    requires Monotone(calls) && i < |calls| && Accepted(ttl, calls, i)
    ensures calls[i].id in History(ttl, calls) && History(ttl, calls)[calls[i].id] >= calls[i].stamp
    decreases |calls|
  {
    var past, c := calls[..|calls| - 1], calls[|calls| - 1];
    MonotonePrefix(calls);
    if i == |past| {
      assert calls == past + [c];
      EvictionUnobservable(ttl, past, c);
    } else {
      assert past[..i] == calls[..i];
      HistoryKeeps(ttl, past, i);
    }
  }

  /** Two accepted calls with one id are more than the window apart, in every run. */
  lemma AtMostOncePerWindow(ttl: real, calls: seq<Call>, i: nat, j: nat)
    requires Monotone(calls) && i < j < |calls| && calls[i].id == calls[j].id
    requires Accepted(ttl, calls, i) && Accepted(ttl, calls, j)
    ensures calls[j].now - calls[i].stamp > ttl
  {
    var past := calls[..j];
    assert past[..i] == calls[..i];
    HistoryKeeps(ttl, past, i);
    assert Monotone(past + [calls[j]]) by { assert past + [calls[j]] == calls[..j + 1]; }
    EvictionUnobservable(ttl, past, calls[j]);
  }

  lemma AnswerFromHistory(ttl: real, calls: seq<Call>, i: nat)
    requires Monotone(calls) && i < |calls|
    ensures Accepted(ttl, calls, i) <==> !Remembered(History(ttl, calls[..i]), ttl, calls[i])
  {
    assert calls[..i] + [calls[i]] == calls[..i + 1];
    EvictionUnobservable(ttl, calls[..i], calls[i]);
  }

  lemma {:induction false} HistoryFrom(ttl: real, calls: seq<Call>, id: string) returns (i: nat)
    requires Monotone(calls) && id in History(ttl, calls)
    ensures i < |calls| && calls[i].id == id && Accepted(ttl, calls, i) && History(ttl, calls)[id] == calls[i].stamp
    decreases |calls|
  {
    var last := |calls| - 1;
    var past := calls[..last];
    MonotonePrefix(calls);
    AnswerFromHistory(ttl, calls, last);
    if calls[last].id == id && Accepted(ttl, calls, last) {
      i := last;
    } else {
      i := HistoryFrom(ttl, past, id);
      assert past[..i] == calls[..i];
    }
  }

  /** A call is let through exactly when every call with its id that was let through before is more than the window
      back. Calls that were held up do not count, so a stream of repeats does not keep an id out for ever. */
  lemma AcceptedIff(ttl: real, calls: seq<Call>, j: nat)
    requires Monotone(calls) && j < |calls|
    ensures Accepted(ttl, calls, j) <==>
      forall i :: 0 <= i < j && calls[i].id == calls[j].id && Accepted(ttl, calls, i) ==>
        calls[j].now - calls[i].stamp > ttl
  {
    if Accepted(ttl, calls, j) {
      forall i | 0 <= i < j && calls[i].id == calls[j].id && Accepted(ttl, calls, i)
        ensures calls[j].now - calls[i].stamp > ttl
      {
        AtMostOncePerWindow(ttl, calls, i, j);
      }
    } else {
      AnswerFromHistory(ttl, calls, j);
      var i := HistoryFrom(ttl, calls[..j], calls[j].id);
      assert calls[..j][..i] == calls[..i];
    }
  }
}
