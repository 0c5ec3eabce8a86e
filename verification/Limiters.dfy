/**
 The replay guard and the token bucket (mosaic/security.py), over real-valued time.
 */
module Limiters {
  import opened Results

  // ----- Replay guard

  datatype Entry = Entry(id: string, time: real)

  /** The entries that have not expired, in order. */
  function Alive(seen: seq<Entry>, now: real, ttl: real): seq<Entry> {
    if seen == [] then []
    else Alive(seen[..|seen| - 1], now, ttl) + if now - seen[|seen| - 1].time > ttl then [] else [seen[|seen| - 1]]
  }

  predicate Contains(seen: seq<Entry>, id: string) { exists i :: 0 <= i < |seen| && seen[i].id == id }

  function Newest(seen: seq<Entry>, limit: nat): seq<Entry> { if |seen| <= limit then seen else seen[|seen| - limit..] }

  datatype Guard = Guard(maxEntries: nat, ttl: real, seen: seq<Entry>) {
    function Accept(id: string, now: real): (Guard, bool) {
      var alive := Alive(seen, now, ttl);
      if Contains(alive, id) then (this.(seen := alive), false)
      else (this.(seen := Newest(alive + [Entry(id, now)], maxEntries)), true)
    }
  }

  /** The ordered map is a suffix of the acceptance log; what it lacks was pushed out or had expired by `last`. */
  ghost predicate Refines(g: Guard, log: seq<Entry>, last: real) {
    && |g.seen| <= |log| && |g.seen| <= g.maxEntries
    && g.seen == log[|log| - |g.seen|..]
    && (forall i :: 0 <= i < |log| ==> log[i].time <= last)
    && (forall i, j :: 0 <= i < j < |log| ==> log[i].time <= log[j].time)
    && (forall i :: 0 <= i < |log| - |g.seen| ==> i < |log| - g.maxEntries || last - log[i].time > g.ttl)
  }

  /** Among the last `maxEntries` accepted and accepted at most `ttl` ago. */
  ghost predicate Recent(g: Guard, log: seq<Entry>, id: string, now: real) {
    exists i :: 0 <= i < |log| && |log| - g.maxEntries <= i && log[i].id == id && now - log[i].time <= g.ttl
  }

  ghost predicate InOrder(seen: seq<Entry>) { forall i, j :: 0 <= i < j < |seen| ==> seen[i].time <= seen[j].time }

  predicate Expired(e: Entry, now: real, ttl: real) { now - e.time > ttl }

  lemma {:induction false} AliveConcat(a: seq<Entry>, b: seq<Entry>, now: real, ttl: real)
    ensures Alive(a + b, now, ttl) == Alive(a, now, ttl) + Alive(b, now, ttl)
  {
    if b == [] {
      assert a + b == a;
    } else {
      assert (a + b)[..|a + b| - 1] == a + b[..|b| - 1];
      AliveConcat(a, b[..|b| - 1], now, ttl);
    }
  }

  lemma {:induction false} AllOrNone(s: seq<Entry>, now: real, ttl: real)
    ensures (forall i :: 0 <= i < |s| ==> Expired(s[i], now, ttl)) ==> Alive(s, now, ttl) == []
    ensures (forall i :: 0 <= i < |s| ==> !Expired(s[i], now, ttl)) ==> Alive(s, now, ttl) == s
  {
    if s != [] {
      var n := |s| - 1;
      AllOrNone(s[..n], now, ttl);
      assert s == s[..n] + [s[n]];
    }
  }

  /** In time order the expired entries come first. */
  lemma {:induction false} Boundary(s: seq<Entry>, now: real, ttl: real) returns (k: nat)
    requires InOrder(s)
    ensures k <= |s|
    ensures forall i :: 0 <= i < k ==> Expired(s[i], now, ttl)
    ensures forall i :: k <= i < |s| ==> !Expired(s[i], now, ttl)
  {
    k := 0;
    if s != [] {
      var n := |s| - 1;
      k := Boundary(s[..n], now, ttl);
      if Expired(s[n], now, ttl) { k := |s|; }
    }
  }

  /** So expiry drops a prefix: the entries that are alive are those from some point on. */
  lemma AliveIsSuffix(seen: seq<Entry>, now: real, ttl: real) returns (k: nat)
    requires InOrder(seen)
    ensures k <= |seen| && Alive(seen, now, ttl) == seen[k..]
    ensures forall i :: 0 <= i < k ==> Expired(seen[i], now, ttl)
    ensures forall i :: k <= i < |seen| ==> !Expired(seen[i], now, ttl)
  {
    k := Boundary(seen, now, ttl);
    assert seen == seen[..k] + seen[k..];
    AliveConcat(seen[..k], seen[k..], now, ttl);
    AllOrNone(seen[..k], now, ttl);
    AllOrNone(seen[k..], now, ttl);
  }

  lemma SeenInOrder(g: Guard, log: seq<Entry>, last: real)
    requires Refines(g, log, last)
    ensures InOrder(g.seen)
  {}

  /** A message is held by the live entries exactly when it is recent. */
  lemma HeldIsRecent(g: Guard, log: seq<Entry>, last: real, id: string, now: real, k: nat)
    requires Refines(g, log, last) && last <= now && k <= |g.seen|
    requires forall i :: 0 <= i < k ==> Expired(g.seen[i], now, g.ttl)
    requires forall i :: k <= i < |g.seen| ==> !Expired(g.seen[i], now, g.ttl)
    ensures Contains(g.seen[k..], id) <==> Recent(g, log, id, now)
  {
    var s := |log| - |g.seen|;
    var alive := g.seen[k..];
    if Contains(alive, id) {
      var i :| 0 <= i < |alive| && alive[i].id == id;
      assert log[s + k + i] == g.seen[k + i];
    }
    if Recent(g, log, id, now) {
      var i :| 0 <= i < |log| && |log| - g.maxEntries <= i && log[i].id == id && now - log[i].time <= g.ttl;
      assert i >= s;
      assert log[i] == g.seen[i - s];
      assert alive[i - s - k] == log[i];
    }
  }

  /** Under non-decreasing time a message is refused exactly when it is recent; otherwise it joins the log. */
  lemma AcceptRefines(g: Guard, log: seq<Entry>, last: real, id: string, now: real)
    requires Refines(g, log, last) && last <= now
    ensures var (h, ok) := g.Accept(id, now);
            && (!ok <==> Recent(g, log, id, now))
            && Refines(h, if ok then log + [Entry(id, now)] else log, now)
  {
    hide Refines, Contains, Recent, Alive, InOrder, Expired;
    SeenInOrder(g, log, last);
    var k := AliveIsSuffix(g.seen, now, g.ttl);
    HeldIsRecent(g, log, last, id, now, k);
    var alive := g.seen[k..];
    AliveRefines(g, log, last, now, alive, k);
    AcceptedRefines(g, log, now, alive, Entry(id, now));
  }

  lemma AliveRefines(g: Guard, log: seq<Entry>, last: real, now: real, alive: seq<Entry>, k: nat)
    requires Refines(g, log, last) && last <= now && k <= |g.seen| && alive == g.seen[k..]
    requires forall i :: 0 <= i < k ==> Expired(g.seen[i], now, g.ttl)
    ensures Refines(g.(seen := alive), log, now)
  {
    var s := |log| - |g.seen|;
    forall i | 0 <= i < |log| - |alive| ensures i < |log| - g.maxEntries || now - log[i].time > g.ttl {
      if i >= s { assert log[i] == g.seen[i - s]; }
    }
  }

  lemma AcceptedRefines(g: Guard, log: seq<Entry>, now: real, alive: seq<Entry>, e: Entry)
    requires Refines(g.(seen := alive), log, now) && e.time == now
    ensures Refines(g.(seen := Newest(alive + [e], g.maxEntries)), log + [e], now)
  {
    var seen, all := Newest(alive + [e], g.maxEntries), log + [e];
    assert all[|all| - |seen|..] == seen;
  }

  // ----- Runs of the guard

  datatype Call = Call(id: string, now: real)

  datatype Watched = Watched(guard: Guard, log: seq<Entry>, last: real)

  function Watch(w: Watched, c: Call): Watched {
    var (h, ok) := w.guard.Accept(c.id, c.now);
    Watched(h, if ok then w.log + [Entry(c.id, c.now)] else w.log, c.now)
  }

  function WatchAll(w: Watched, calls: seq<Call>): Watched {
    if calls == [] then w else Watch(WatchAll(w, calls[..|calls| - 1]), calls[|calls| - 1])
  }

  ghost predicate Ordered(start: real, calls: seq<Call>) {
    && (forall i :: 0 <= i < |calls| ==> start <= calls[i].now)
    && forall i, j :: 0 <= i < j < |calls| ==> calls[i].now <= calls[j].now
  }

  /** Over any run of calls in time order, each refusal and each acceptance is what the log says. */
  lemma {:induction false} GuardRuns(maxEntries: nat, ttl: real, start: real, calls: seq<Call>, next: Call)
    requires Ordered(start, calls + [next])
    ensures var w := WatchAll(Watched(Guard(maxEntries, ttl, []), [], start), calls);
            && Refines(w.guard, w.log, w.last) && w.last <= next.now
            && (!w.guard.Accept(next.id, next.now).1 <==> Recent(w.guard, w.log, next.id, next.now))
  {
    hide Recent, Guard.Accept;
    var w0 := Watched(Guard(maxEntries, ttl, []), [], start);
    assert (calls + [next])[|calls|] == next;
    if calls != [] {
      var n := |calls| - 1;
      assert forall i :: 0 <= i < |calls| ==> (calls + [next])[i] == calls[i];
      assert calls[..n] + [calls[n]] == calls;
      GuardRuns(maxEntries, ttl, start, calls[..n], calls[n]);
      var w := WatchAll(w0, calls[..n]);
      hide Refines;
      AcceptRefines(w.guard, w.log, w.last, calls[n].id, calls[n].now);
    }
    var w := WatchAll(w0, calls);
    AcceptRefines(w.guard, w.log, w.last, next.id, next.now);
  }

  class ReplayGuard {
    const maxEntries: nat
    const ttl: real
    var seen: seq<Entry>

    function State(): Guard
      reads this
    {
      Guard(maxEntries, ttl, seen)
    }

    constructor (maxEntries: nat, ttl: real)
      ensures State() == Guard(maxEntries, ttl, [])
    {
      this.maxEntries, this.ttl, seen := maxEntries, ttl, [];
    }

    method Accept(id: string, now: real) returns (ok: bool)
      modifies this
      ensures (State(), ok) == old(State()).Accept(id, now)
    {
      var alive := [];
      for i := 0 to |seen|
        invariant alive == Alive(seen[..i], now, ttl)
      {
        assert seen[..i + 1][..i] == seen[..i];
        if !(now - seen[i].time > ttl) { alive := alive + [seen[i]]; }
      }
      assert seen[..|seen|] == seen;
      seen := alive;
      if Contains(seen, id) { return false; }
      seen := seen + [Entry(id, now)];
      ghost var all := seen;
      while |seen| > maxEntries
        invariant |seen| <= |all| && seen == all[|all| - |seen|..]
        invariant |seen| >= |Newest(all, maxEntries)|
      {
        seen := seen[1..];
      }
      return true;
    }
  }

  // ----- Token bucket

  /** Time passed, where a clock that went back counts for none. */
  function Elapsed(since: real, now: real): real { if now - since > 0.0 then now - since else 0.0 }

  datatype Bucket = Bucket(capacity: real, refill: real, tokens: real, updatedAt: real) {
    /** The tokens after refilling. */
    function Available(now: real): real {
      var filled := tokens + Elapsed(updatedAt, now) * refill;
      if filled < capacity then filled else capacity
    }

    /** Amounts are positive: the source raises for any other. */
    function Allow(amount: real, now: real): (Bucket, bool) {
      var available := Available(now);
      if available < amount then (Bucket(capacity, refill, available, now), false)
      else (Bucket(capacity, refill, available - amount, now), true)
    }

    predicate Valid() { capacity > 0.0 && refill > 0.0 && 0.0 <= tokens <= capacity }
  }

  datatype Request = Request(amount: real, now: real)

  function AllowAll(b: Bucket, requests: seq<Request>): Bucket {
    if requests == [] then b
    else AllowAll(b, requests[..|requests| - 1]).Allow(requests[|requests| - 1].amount, requests[|requests| - 1].now).0
  }

  /** The amount the requests were granted in all. */
  function Granted(b: Bucket, requests: seq<Request>): real {
    if requests == [] then 0.0
    else
      var last := requests[|requests| - 1];
      Granted(b, requests[..|requests| - 1]) +
      if AllowAll(b, requests[..|requests| - 1]).Allow(last.amount, last.now).1 then last.amount else 0.0
  }

  ghost predicate InTime(requests: seq<Request>) {
    && (forall i :: 0 <= i < |requests| ==> requests[i].amount > 0.0)
    && forall i, j :: 0 <= i < j < |requests| ==> requests[i].now <= requests[j].now
  }

  lemma AllowKeeps(b: Bucket, amount: real, now: real)
    requires b.Valid() && amount > 0.0
    ensures var (c, ok) := b.Allow(amount, now);
            && c.Valid() && c.capacity == b.capacity && c.refill == b.refill && c.updatedAt == now
            && c.tokens <= b.capacity - (if ok then amount else 0.0)
            && (b.updatedAt <= now ==> c.tokens <= b.tokens + (now - b.updatedAt) * b.refill - if ok then amount else 0.0)
  {
    var elapsed := if now - b.updatedAt > 0.0 then now - b.updatedAt else 0.0;
    assert elapsed * b.refill >= 0.0;
  }

  /** What the requests could have been granted: a full bucket and the refill between the first and the last. */
  function Allowance(b: Bucket, requests: seq<Request>): real
    requires requests != []
  {
    b.capacity + (requests[|requests| - 1].now - requests[0].now) * b.refill
  }

  lemma FirstAllowance(b: Bucket, requests: seq<Request>)
    requires |requests| == 1
    ensures Allowance(b, requests) == b.capacity
  {
    assert 0.0 * b.refill == 0.0;
  }

  lemma NextAllowance(b: Bucket, requests: seq<Request>)
    requires |requests| >= 2
    ensures var n := |requests| - 1;
            Allowance(b, requests) == Allowance(b, requests[..n]) + (requests[n].now - requests[n - 1].now) * b.refill
  {
    var n := |requests| - 1;
    Spread(requests[n].now, requests[n - 1].now, requests[0].now, b.refill);
  }

  /** From the first request on, tokens and grants together never exceed the allowance. */
  lemma {:induction false} GrantsBounded(b: Bucket, requests: seq<Request>)
    requires b.Valid() && InTime(requests) && requests != []
    ensures var c := AllowAll(b, requests);
            && c.Valid() && c.capacity == b.capacity && c.refill == b.refill
            && c.updatedAt == requests[|requests| - 1].now
            && c.tokens + Granted(b, requests) <= Allowance(b, requests)
    decreases |requests|
  {
    hide Bucket.Allow, Allowance;
    var n := |requests| - 1;
    var init, last := requests[..n], requests[n];
    if n == 0 {
      assert AllowAll(b, init) == b && Granted(b, init) == 0.0;
      AllowKeeps(b, last.amount, last.now);
      FirstAllowance(b, requests);
    } else {
      GrantsBounded(b, init);
      AllowKeeps(AllowAll(b, init), last.amount, last.now);
      NextAllowance(b, requests);
    }
  }

  lemma Spread(c: real, b: real, a: real, rate: real)
    ensures (b - a) * rate + (c - b) * rate == (c - a) * rate
  {}

  lemma {:induction false} AllowAllSplits(b: Bucket, first: seq<Request>, rest: seq<Request>)
    ensures AllowAll(b, first + rest) == AllowAll(AllowAll(b, first), rest)
    ensures Granted(b, first + rest) == Granted(b, first) + Granted(AllowAll(b, first), rest)
  {
    hide Bucket.Allow;
    if rest == [] {
      assert first + rest == first && Granted(AllowAll(b, first), rest) == 0.0;
    } else {
      var all, init, last := first + rest, rest[..|rest| - 1], rest[|rest| - 1];
      assert all[..|all| - 1] == first + init && all[|all| - 1] == last;
      AllowAllSplits(b, first, init);
      assert AllowAll(b, all[..|all| - 1]) == AllowAll(AllowAll(b, first), init);
    }
  }

  lemma {:induction false} AllowAllKeeps(b: Bucket, requests: seq<Request>)
    requires b.Valid() && forall i :: 0 <= i < |requests| ==> requests[i].amount > 0.0
    ensures AllowAll(b, requests).Valid()
    ensures AllowAll(b, requests).capacity == b.capacity && AllowAll(b, requests).refill == b.refill
  {
    hide Bucket.Allow;
    if requests != [] {
      var n := |requests| - 1;
      AllowAllKeeps(b, requests[..n]);
      AllowKeeps(AllowAll(b, requests[..n]), requests[n].amount, requests[n].now);
    }
  }

  /**
   In a run in time order, the amount granted from any request to any later one is at most the capacity plus what is
   refilled between the two, and the tokens stay between zero and the capacity.
   */
  lemma RateLimit(b: Bucket, requests: seq<Request>, i: nat, j: nat)
    requires b.Valid() && InTime(requests) && i < j <= |requests|
    ensures Granted(b, requests[..j]) - Granted(b, requests[..i])
            <= b.capacity + (requests[j - 1].now - requests[i].now) * b.refill
    ensures 0.0 <= AllowAll(b, requests[..j]).tokens <= b.capacity
  {
    hide AllowAll, Granted, InTime;
    var before, slice := requests[..i], requests[i..j];
    assert requests[..j] == before + slice;
    SliceInTime(requests, i, j);
    AllowAllSplits(b, before, slice);
    AllowAllKeeps(b, before);
    AllowAllKeeps(b, requests[..j]);
    var c := AllowAll(b, before);
    GrantsBounded(c, slice);
    assert slice[|slice| - 1] == requests[j - 1] && slice[0] == requests[i] && c.refill == b.refill;
    assert Allowance(c, slice) == b.capacity + (requests[j - 1].now - requests[i].now) * b.refill;
    assert AllowAll(c, slice).tokens >= 0.0;
    hide Allowance;
  }

  // ----- When a request is granted

  /** What request i and those after it leave of a full bucket and the refill since. */
  function Window(b: Bucket, requests: seq<Request>, i: nat, now: real): real
    requires i < |requests|
  {
    b.capacity + (now - requests[i].now) * b.refill - (Granted(b, requests) - Granted(b, requests[..i]))
  }

  /** What all requests leave of the tokens at the start and the refill since. */
  function SinceStart(b: Bucket, requests: seq<Request>, now: real): real {
    b.tokens + (now - b.updatedAt) * b.refill - Granted(b, requests)
  }

  ghost predicate Runs(b: Bucket, requests: seq<Request>, now: real) {
    && b.Valid() && InTime(requests) && b.updatedAt <= now
    && forall i :: 0 <= i < |requests| ==> b.updatedAt <= requests[i].now <= now
  }

  /** x is the least of the capacity and of what is left since the start and since each request. */
  ghost predicate Tightest(b: Bucket, requests: seq<Request>, now: real, x: real) {
    && x <= b.capacity && x <= SinceStart(b, requests, now)
    && (forall i :: 0 <= i < |requests| ==> x <= Window(b, requests, i, now))
    && (x == b.capacity || x == SinceStart(b, requests, now)
        || exists i :: 0 <= i < |requests| && x == Window(b, requests, i, now))
  }

  lemma LaterWindow(b: Bucket, init: seq<Request>, last: Request, now: real, i: nat)
    requires i <= |init|
    ensures var g := if AllowAll(b, init).Allow(last.amount, last.now).1 then last.amount else 0.0;
            var shift := (now - last.now) * b.refill - g;
            Window(b, init + [last], i, now) == (if i < |init| then Window(b, init, i, last.now) else b.capacity) + shift
  {
    hide AllowAll, Granted, Bucket.Allow;
    GrantedNext(b, init, last);
    if i < |init| {
      assert (init + [last])[..i] == init[..i] && (init + [last])[i] == init[i];
      Spread(now, last.now, init[i].now, b.refill);
    } else {
      assert (init + [last])[..i] == init && (init + [last])[i] == last;
    }
  }

  lemma LaterSinceStart(b: Bucket, init: seq<Request>, last: Request, now: real)
    ensures var g := if AllowAll(b, init).Allow(last.amount, last.now).1 then last.amount else 0.0;
            SinceStart(b, init + [last], now) == SinceStart(b, init, last.now) + (now - last.now) * b.refill - g
  {
    hide AllowAll, Granted, Bucket.Allow;
    GrantedNext(b, init, last);
    Spread(now, last.now, b.updatedAt, b.refill);
  }

  /** The tokens after one more request and a refill. */
  lemma AvailableNext(b: Bucket, amount: real, at: real, now: real)
    requires at <= now
    ensures var (c, ok) := b.Allow(amount, at);
            var x := b.Available(at) + (now - at) * b.refill - if ok then amount else 0.0;
            c.Available(now) == if x < b.capacity then x else b.capacity
  {}

  lemma TightestNext(b: Bucket, init: seq<Request>, last: Request, now: real, x: real, y: real)
    requires Tightest(b, init, last.now, x)
    requires var g := if AllowAll(b, init).Allow(last.amount, last.now).1 then last.amount else 0.0;
             var z := x + (now - last.now) * b.refill - g;
             y == if z < b.capacity then z else b.capacity
    ensures Tightest(b, init + [last], now, y)
  {
    hide AllowAll, Granted, Bucket.Allow, Window, SinceStart;
    var all := init + [last];
    LaterSinceStart(b, init, last, now);
    forall i | 0 <= i < |all| ensures y <= Window(b, all, i, now) { LaterWindow(b, init, last, now, i); }
    if y != b.capacity {
      if x == b.capacity {
        LaterWindow(b, init, last, now, |init|);
      } else if x != SinceStart(b, init, last.now) {
        var i :| 0 <= i < |init| && x == Window(b, init, i, last.now);
        LaterWindow(b, init, last, now, i);
      }
    }
  }

  lemma {:induction false} AvailableIsTightest(b: Bucket, requests: seq<Request>, now: real)
    requires Runs(b, requests, now)
    ensures Tightest(b, requests, now, AllowAll(b, requests).Available(now))
    decreases |requests|
  {
    hide Bucket.Allow, Bucket.Available, Tightest, Runs, AllowAll;
    if requests == [] {
      FirstTightest(b, now);
    } else {
      var n := |requests| - 1;
      var init, last := requests[..n], requests[n];
      assert requests == init + [last];
      RunsBefore(b, init, last, now);
      AvailableIsTightest(b, init, last.now);
      GrantedNext(b, init, last);
      AvailableNext(AllowAll(b, init), last.amount, last.now, now);
      TightestNext(b, init, last, now, AllowAll(b, init).Available(last.now), AllowAll(b, requests).Available(now));
    }
  }

  lemma FirstTightest(b: Bucket, now: real)
    requires Runs(b, [], now)
    ensures Tightest(b, [], now, AllowAll(b, []).Available(now))
  {
    NothingYet(b);
    hide AllowAll, Granted;
    assert SinceStart(b, [], now) == b.tokens + (now - b.updatedAt) * b.refill;
    if now == b.updatedAt { assert (now - b.updatedAt) * b.refill == 0.0; }
  }

  lemma RunsBefore(b: Bucket, init: seq<Request>, last: Request, now: real)
    requires Runs(b, init + [last], now)
    ensures Runs(b, init, last.now) && last.now <= now
    ensures AllowAll(b, init).capacity == b.capacity && AllowAll(b, init).refill == b.refill
  {
    hide AllowAll;
    var all := init + [last];
    assert all[|init|] == last && forall i :: 0 <= i < |init| ==> init[i] == all[i];
    AllowAllKeeps(b, init);
  }

  /**
   In time order a request is granted exactly when it fits what is left since the start, and fits a full bucket and its
   refill less what was granted from any earlier request on.
   */
  lemma GrantedExactly(b: Bucket, requests: seq<Request>, next: Request)
    requires Runs(b, requests, next.now)
    ensures AllowAll(b, requests).Allow(next.amount, next.now).1 <==>
            && next.amount <= b.capacity && next.amount <= SinceStart(b, requests, next.now)
            && forall i :: 0 <= i < |requests| ==> next.amount <= Window(b, requests, i, next.now)
  {
    AvailableIsTightest(b, requests, next.now);
    hide AllowAll, Window, SinceStart, Bucket.Available;
  }

  lemma SliceInTime(requests: seq<Request>, i: nat, j: nat)
    requires InTime(requests) && i < j <= |requests|
    ensures InTime(requests[i..j]) && requests[i..j][0] == requests[i] && requests[i..j][j - i - 1] == requests[j - 1]
    ensures forall k :: 0 <= k < i ==> requests[..i][k].amount > 0.0
    ensures forall k :: 0 <= k < j ==> requests[..j][k].amount > 0.0
  {}

  lemma GrantedNext(b: Bucket, requests: seq<Request>, next: Request)
    ensures AllowAll(b, requests + [next]) == AllowAll(b, requests).Allow(next.amount, next.now).0
    ensures Granted(b, requests + [next]) ==
            Granted(b, requests) + if AllowAll(b, requests).Allow(next.amount, next.now).1 then next.amount else 0.0
  {
    var all := requests + [next];
    assert all[..|all| - 1] == requests && all[|all| - 1] == next;
  }

  // ----- The clock

  /** From any request to any later one at most a full bucket and the refill of the time between them is granted. */
  ghost predicate WithinRate(b: Bucket, requests: seq<Request>) {
    forall i, j :: 0 <= i < j <= |requests| ==>
      Granted(b, requests[..j]) - Granted(b, requests[..i])
      <= b.capacity + Elapsed(requests[i].now, requests[j - 1].now) * b.refill
  }

  ghost predicate AsksAt(requests: seq<Request>, times: seq<real>) {
    && |requests| == |times|
    && forall i :: 0 <= i < |times| ==> requests[i].amount > 0.0 && requests[i].now == times[i]
  }

  ghost predicate NeverBack(times: seq<real>) { forall i, j :: 0 <= i < j < |times| ==> times[i] <= times[j] }

  /** What an empty bucket takes in from one time to the next. */
  function TopUp(b: Bucket, since: real, now: real): real {
    var refill := Elapsed(since, now) * b.refill;
    if refill < b.capacity then refill else b.capacity
  }

  /** What a bucket emptied at every time takes in from time i to time j. */
  function TopUps(b: Bucket, times: seq<real>, i: nat, j: nat): real
    requires j < |times|
  {
    if j <= i then 0.0 else TopUps(b, times, i, j - 1) + TopUp(b, times[j - 1], times[j])
  }

  /** Going to and fro, the clock never tops up more than the time it has advanced. */
  ghost predicate Steady(b: Bucket, times: seq<real>) {
    forall i, j :: 0 <= i <= j < |times| ==> TopUps(b, times, i, j) <= Elapsed(times[i], times[j]) * b.refill
  }

  // What is granted is at most what the bucket held and took in.

  lemma AllowTakes(c: Bucket, amount: real, now: real)
    requires c.Valid() && amount > 0.0
    ensures var (d, ok) := c.Allow(amount, now);
            && d.updatedAt == now && d.capacity == c.capacity && d.refill == c.refill && d.Valid()
            && (if ok then amount else 0.0) + d.tokens <= c.capacity
            && (if ok then amount else 0.0) + d.tokens <= c.tokens + TopUp(c, c.updatedAt, now)
  {
    RefillNonNegative(Elapsed(c.updatedAt, now), c.refill);
  }

  lemma RefillNonNegative(elapsed: real, rate: real)
    requires elapsed >= 0.0 && rate > 0.0
    ensures elapsed * rate >= 0.0
  {}

  lemma {:induction false} GrantsTopUps(b: Bucket, requests: seq<Request>, times: seq<real>, i: nat, j: nat)
    requires b.Valid() && AsksAt(requests, times) && i < j <= |requests|
    ensures var c := AllowAll(b, requests[..j]);
            && c.Valid() && c.capacity == b.capacity && c.refill == b.refill && c.updatedAt == times[j - 1]
            && Granted(b, requests[..j]) - Granted(b, requests[..i]) + c.tokens
               <= b.capacity + TopUps(b, times, i, j - 1)
    decreases j
  {
    hide AllowAll, Granted, Bucket.Allow, TopUp;
    var before, next := requests[..j - 1], requests[j - 1];
    assert requests[..j] == before + [next];
    AllowAllKeeps(b, before);
    GrantedNext(b, before, next);
    AllowTakes(AllowAll(b, before), next.amount, next.now);
    if i < j - 1 {
      GrantsTopUps(b, requests, times, i, j - 1);
      SameTopUp(AllowAll(b, before), b, times[j - 2], times[j - 1]);
    }
  }

  lemma SameTopUp(c: Bucket, b: Bucket, since: real, now: real)
    requires c.capacity == b.capacity && c.refill == b.refill
    ensures TopUp(c, since, now) == TopUp(b, since, now)
  {}

  lemma SteadyAt(b: Bucket, times: seq<real>, i: nat, j: nat)
    requires Steady(b, times) && i <= j < |times|
    ensures TopUps(b, times, i, j) <= Elapsed(times[i], times[j]) * b.refill
  {}

  lemma SteadyKeepsRate(b: Bucket, requests: seq<Request>, times: seq<real>)
    requires b.Valid() && Steady(b, times) && AsksAt(requests, times)
    ensures WithinRate(b, requests)
  {
    hide AllowAll, Granted, TopUps, Elapsed;
    forall i, j | 0 <= i < j <= |requests|
      ensures Granted(b, requests[..j]) - Granted(b, requests[..i])
              <= b.capacity + Elapsed(requests[i].now, requests[j - 1].now) * b.refill
    {
      GrantsTopUps(b, requests, times, i, j);
      SteadyAt(b, times, i, j - 1);
    }
  }

  // Emptying the bucket at every time from the i-th on gets all of it.

  /** Too much before the i-th time, all the bucket holds then, and from then on what it took in since. */
  function Emptying(b: Bucket, times: seq<real>, i: nat): seq<Request> {
    seq(|times|, k requires 0 <= k < |times| => Request(EmptyingAmount(b, times, i, k), times[k]))
  }

  function EmptyingAmount(b: Bucket, times: seq<real>, i: nat, k: nat): real
    requires k < |times|
  {
    if k < i then 2.0 * b.capacity
    else if k == i || TopUp(b, times[k - 1], times[k]) <= 0.0 then b.capacity
    else TopUp(b, times[k - 1], times[k])
  }

  lemma EmptyingAsks(b: Bucket, times: seq<real>, i: nat)
    requires b.Valid()
    ensures AsksAt(Emptying(b, times, i), times)
  {}

  lemma FullRefuses(c: Bucket, now: real)
    requires c.Valid() && c.tokens == c.capacity
    ensures c.Allow(2.0 * c.capacity, now) == (Bucket(c.capacity, c.refill, c.capacity, now), false)
    ensures c.Allow(c.capacity, now) == (Bucket(c.capacity, c.refill, 0.0, now), true)
  {
    RefillNonNegative(Elapsed(c.updatedAt, now), c.refill);
  }

  lemma {:induction false} NothingGranted(b: Bucket, times: seq<real>, i: nat, n: nat)
    requires b.Valid() && b.tokens == b.capacity && n <= i < |times|
    ensures var c := AllowAll(b, Emptying(b, times, i)[..n]);
            c.Valid() && c.tokens == c.capacity == b.capacity && c.refill == b.refill
    ensures Granted(b, Emptying(b, times, i)[..n]) == 0.0
  {
    var requests := Emptying(b, times, i);
    if n == 0 {
      NothingYet(b);
    } else {
      NothingGranted(b, times, i, n - 1);
      assert requests[..n] == requests[..n - 1] + [requests[n - 1]];
      GrantedNext(b, requests[..n - 1], requests[n - 1]);
      FullRefuses(AllowAll(b, requests[..n - 1]), times[n - 1]);
      hide AllowAll, Granted, Bucket.Allow;
    }
  }

  lemma EmptyGives(c: Bucket, now: real)
    requires c.Valid() && c.tokens == 0.0
    ensures var t := TopUp(c, c.updatedAt, now);
            if t > 0.0 then c.Allow(t, now) == (Bucket(c.capacity, c.refill, 0.0, now), true)
            else t == 0.0 && c.Allow(c.capacity, now) == (Bucket(c.capacity, c.refill, 0.0, now), false)
  {
    RefillNonNegative(Elapsed(c.updatedAt, now), c.refill);
  }

  lemma EmptyingElement(b: Bucket, times: seq<real>, i: nat, k: nat)
    requires k < |times|
    ensures |Emptying(b, times, i)| == |times|
    ensures Emptying(b, times, i)[k] == Request(EmptyingAmount(b, times, i, k), times[k])
  {}

  lemma {:induction false} EmptyingGets(b: Bucket, times: seq<real>, i: nat, j: nat)
    requires b.Valid() && b.tokens == b.capacity && i <= j < |times|
    ensures |Emptying(b, times, i)| == |times|
    ensures AllowAll(b, Emptying(b, times, i)[..j + 1]) == Bucket(b.capacity, b.refill, 0.0, times[j])
    ensures Granted(b, Emptying(b, times, i)[..j + 1]) - Granted(b, Emptying(b, times, i)[..i])
            == b.capacity + TopUps(b, times, i, j)
    decreases j
  {
    hide AllowAll, Granted, Bucket.Allow, TopUp, Emptying;
    EmptyingElement(b, times, i, j);
    var requests := Emptying(b, times, i);
    assert requests[..j + 1] == requests[..j] + [requests[j]];
    GrantedNext(b, requests[..j], requests[j]);
    if i == j {
      NothingGranted(b, times, i, i);
      FullRefuses(AllowAll(b, requests[..i]), times[i]);
    } else {
      EmptyingGets(b, times, i, j - 1);
      var c := AllowAll(b, requests[..j]);
      assert requests[..j] == requests[..j - 1 + 1];
      SameTopUp(c, b, times[j - 1], times[j]);
      EmptyGives(c, times[j]);
    }
  }

  lemma OutsideRate(b: Bucket, requests: seq<Request>, i: nat, j: nat)
    requires i < j <= |requests|
    requires Granted(b, requests[..j]) - Granted(b, requests[..i])
             > b.capacity + Elapsed(requests[i].now, requests[j - 1].now) * b.refill
    ensures !WithinRate(b, requests)
  {
    hide Granted, Elapsed;
  }

  lemma UnsteadyOvergrants(b: Bucket, times: seq<real>, i: nat, j: nat)
    requires b.Valid() && b.tokens == b.capacity && i <= j < |times|
    requires TopUps(b, times, i, j) > Elapsed(times[i], times[j]) * b.refill
    ensures AsksAt(Emptying(b, times, i), times) && !WithinRate(b, Emptying(b, times, i))
  {
    hide AllowAll, Granted, WithinRate, AsksAt, TopUps, Elapsed, Emptying, EmptyingAmount;
    EmptyingAsks(b, times, i);
    EmptyingGets(b, times, i, j);
    EmptyingElement(b, times, i, i);
    EmptyingElement(b, times, i, j);
    OutsideRate(b, Emptying(b, times, i), i, j + 1);
  }

  /** A full bucket keeps to its rate, whatever is asked of it at these times, exactly when they are steady. */
  lemma RateHoldsExactly(b: Bucket, times: seq<real>)
    requires b.Valid() && b.tokens == b.capacity
    ensures (forall requests :: AsksAt(requests, times) ==> WithinRate(b, requests)) <==> Steady(b, times)
  {
    hide WithinRate, AsksAt, TopUps, Elapsed;
    if Steady(b, times) {
      forall requests | AsksAt(requests, times) ensures WithinRate(b, requests) { SteadyKeepsRate(b, requests, times); }
    } else {
      var i, j :| 0 <= i <= j < |times| && TopUps(b, times, i, j) > Elapsed(times[i], times[j]) * b.refill;
      UnsteadyOvergrants(b, times, i, j);
    }
  }

  lemma TopUpAtMost(b: Bucket, since: real, now: real)
    requires since <= now
    ensures TopUp(b, since, now) <= (now - since) * b.refill
  {}

  lemma {:induction false} ForwardTopUps(b: Bucket, times: seq<real>, i: nat, j: nat)
    requires b.Valid() && NeverBack(times) && i <= j < |times|
    ensures TopUps(b, times, i, j) <= (times[j] - times[i]) * b.refill
  {
    hide TopUp;
    if i < j {
      ForwardTopUps(b, times, i, j - 1);
      TopUpAtMost(b, times[j - 1], times[j]);
      Spread(times[j], times[j - 1], times[i], b.refill);
    }
  }

  lemma {:induction false} BackwardTopUps(b: Bucket, times: seq<real>, i: nat, j: nat)
    requires b.Valid() && i <= j < |times| && forall k :: i < k <= j ==> times[k] <= times[k - 1]
    ensures TopUps(b, times, i, j) == 0.0
  {
    if i < j { BackwardTopUps(b, times, i, j - 1); }
  }

  /** Times that never go back are steady, and so are times that never go forward. */
  lemma OneWayIsSteady(b: Bucket, times: seq<real>)
    requires b.Valid()
    requires NeverBack(times) || forall k :: 0 < k < |times| ==> times[k] <= times[k - 1]
    ensures Steady(b, times)
  {
    hide NeverBack, TopUps;
    forall i, j | 0 <= i <= j < |times| ensures TopUps(b, times, i, j) <= Elapsed(times[i], times[j]) * b.refill {
      if NeverBack(times) { ForwardTopUps(b, times, i, j); } else { BackwardTopUps(b, times, i, j); }
    }
  }

  /** A step forward beside a step back is not, unless it overfills the bucket. */
  lemma ToAndFroIsUnsteady(b: Bucket, times: seq<real>, k: nat)
    requires b.Valid() && k + 2 < |times|
    requires (times[k + 1] < times[k] && times[k + 1] < times[k + 2]) || (times[k] < times[k + 1] && times[k + 2] < times[k + 1])
    requires (Elapsed(times[k], times[k + 1]) + Elapsed(times[k + 1], times[k + 2])) * b.refill <= b.capacity
    ensures !Steady(b, times)
  {
    var x, y, z := times[k], times[k + 1], times[k + 2];
    TwoTopUps(b, times, k);
    SmallTopUp(b, x, y, z);
    ShorterRefillsLess(Elapsed(x, z), Elapsed(x, y) + Elapsed(y, z), b.refill);
    hide TopUps, TopUp;
    assert TopUps(b, times, k, k + 2) > Elapsed(times[k], times[k + 2]) * b.refill;
  }

  lemma TwoTopUps(b: Bucket, times: seq<real>, k: nat)
    requires k + 2 < |times|
    ensures TopUps(b, times, k, k + 2) == TopUp(b, times[k], times[k + 1]) + TopUp(b, times[k + 1], times[k + 2])
  {
    assert TopUps(b, times, k, k) == 0.0;
    assert TopUps(b, times, k, k + 1) == TopUp(b, times[k], times[k + 1]);
    hide TopUp;
  }

  lemma SmallTopUp(b: Bucket, x: real, y: real, z: real)
    requires b.Valid() && (Elapsed(x, y) + Elapsed(y, z)) * b.refill <= b.capacity
    ensures TopUp(b, x, y) + TopUp(b, y, z) == (Elapsed(x, y) + Elapsed(y, z)) * b.refill
  {
    RefillNonNegative(Elapsed(x, y), b.refill);
    RefillNonNegative(Elapsed(y, z), b.refill);
    SumRefills(Elapsed(x, y), Elapsed(y, z), b.refill);
  }

  lemma SumRefills(x: real, y: real, rate: real)
    ensures (x + y) * rate == x * rate + y * rate
  {}

  lemma ShorterRefillsLess(x: real, y: real, rate: real)
    requires x < y && rate > 0.0
    ensures x * rate < y * rate
  {}

  /** For one, with the clock at 10, 0 and 10 again: two grants of the whole capacity carry the same time. */
  lemma BackwardsClockOvergrants()
    ensures var b := Bucket(1.0, 1.0, 1.0, 10.0);
            Granted(b, [Request(1.0, 10.0), Request(1.0, 0.0), Request(1.0, 10.0)]) == 2.0
  {
    var b := Bucket(1.0, 1.0, 1.0, 10.0);
    var one, two := [Request(1.0, 10.0)], [Request(1.0, 10.0), Request(1.0, 0.0)];
    hide AllowAll, Granted;
    NothingYet(b);
    assert [] + [Request(1.0, 10.0)] == one && one + [Request(1.0, 0.0)] == two;
    assert two + [Request(1.0, 10.0)] == [Request(1.0, 10.0), Request(1.0, 0.0), Request(1.0, 10.0)];
    GrantedNext(b, [], Request(1.0, 10.0));
    assert AllowAll(b, one) == Bucket(1.0, 1.0, 0.0, 10.0);
    GrantedNext(b, one, Request(1.0, 0.0));
    assert AllowAll(b, two) == Bucket(1.0, 1.0, 0.0, 0.0);
    GrantedNext(b, two, Request(1.0, 10.0));
  }

  lemma NothingYet(b: Bucket)
    ensures AllowAll(b, []) == b && Granted(b, []) == 0.0
  {}

  class TokenBucket {
    const capacity: real
    const refill: real
    var tokens: real
    var updatedAt: real

    function State(): Bucket
      reads this
    {
      Bucket(capacity, refill, tokens, updatedAt)
    }

    constructor (capacity: real, refill: real, now: real)
      requires capacity > 0.0 && refill > 0.0
      ensures State() == Bucket(capacity, refill, capacity, now) && State().Valid()
    {
      this.capacity, this.refill, tokens, updatedAt := capacity, refill, capacity, now;
    }

    method Allow(amount: real, now: real) returns (ok: Option<bool>)
      modifies this
      ensures amount <= 0.0 ==> ok == None && State() == old(State())
      ensures amount > 0.0 ==> ok.Some? && (State(), ok.value) == old(State()).Allow(amount, now)
    {
      if amount <= 0.0 { return None; }
      var elapsed := if now - updatedAt > 0.0 then now - updatedAt else 0.0;
      var filled := tokens + elapsed * refill;
      tokens := if filled < capacity then filled else capacity;
      updatedAt := now;
      if tokens < amount { return Some(false); }
      tokens := tokens - amount;
      return Some(true);
    }
  }
}
