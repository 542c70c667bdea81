/**
 The sliding-window limiter on login attempts (manager/dashboard.py). Times are readings of one monotonic clock.
 */
module LoginLimiter {
  type Client = string

  datatype Call = Call(client: Client, now: real)

  /** Stamps less than one window old. */
  function Recent(stamps: seq<real>, now: real, window: real): seq<real> {
    if stamps == [] then []
    else
      var last := stamps[|stamps| - 1];
      Recent(stamps[..|stamps| - 1], now, window) + if now - last < window then [last] else []
  }

  function Stamps(attempts: map<Client, seq<real>>, client: Client): seq<real> {
    if client in attempts then attempts[client] else []
  }

  /** The limiter: how many attempts, in how long. */
  datatype Limits = Limits(attempts: int, window: real)

  predicate Grants(attempts: map<Client, seq<real>>, call: Call, limits: Limits) {
    |Recent(Stamps(attempts, call.client), call.now, limits.window)| < limits.attempts
  }

  function Next(attempts: map<Client, seq<real>>, call: Call, limits: Limits): map<Client, seq<real>> {
    var recent := Recent(Stamps(attempts, call.client), call.now, limits.window);
    attempts[call.client := if Grants(attempts, call, limits) then recent + [call.now] else recent]
  }

  function After(calls: seq<Call>, limits: Limits): map<Client, seq<real>> {
    if calls == [] then map[] else Next(After(calls[..|calls| - 1], limits), calls[|calls| - 1], limits)
  }

  class Limiter {
    const limits: Limits
    var attempts: map<Client, seq<real>>
    ghost var calls: seq<Call>

    ghost predicate Valid()
      reads this
    {
      attempts == After(calls, limits)
    }

    constructor (limits: Limits)
      ensures Valid() && calls == [] && this.limits == limits
    {
      this.limits, attempts, calls := limits, map[], [];
    }

    method Allowed(client: Client, now: real) returns (granted: bool)
      requires Valid()
      modifies this
      ensures Valid() && calls == old(calls) + [Call(client, now)]
      ensures granted == Grants(After(old(calls), limits), Call(client, now), limits)
    {
      var recent: seq<real> := [];
      var stamps := Stamps(attempts, client);
      for i := 0 to |stamps|
        invariant recent == Recent(stamps[..i], now, limits.window)
      {
        assert stamps[..i + 1][..i] == stamps[..i];
        if now - stamps[i] < limits.window {
          recent := recent + [stamps[i]];
        }
      }
      assert stamps[..|stamps|] == stamps;
      calls := calls + [Call(client, now)];
      assert calls[..|calls| - 1] == old(calls);
      if |recent| >= limits.attempts {
        attempts := attempts[client := recent];
        return false;
      }
      recent := recent + [now];
      attempts := attempts[client := recent];
      granted := true;
    }
  }

  // ----- Whole runs -----

  ghost predicate NonDecreasing(calls: seq<Call>) {
    forall i, j :: 0 <= i < j < |calls| ==> calls[i].now <= calls[j].now
  }

  /** The times at which `client` was let through, in order. */
  function Granted(calls: seq<Call>, limits: Limits, client: Client): seq<real> {
    if calls == [] then []
    else
      var init, call := calls[..|calls| - 1], calls[|calls| - 1];
      Granted(init, limits, client)
      + if call.client == client && Grants(After(init, limits), call, limits) then [call.now] else []
  }

  lemma {:induction false} RecentSnoc(stamps: seq<real>, last: real, now: real, window: real)
    ensures Recent(stamps + [last], now, window)
            == Recent(stamps, now, window) + if now - last < window then [last] else []
  {
    assert (stamps + [last])[..|stamps|] == stamps;
  }

  /** Pruning earlier loses nothing that pruning later would keep. */
  lemma {:induction false} RecentTwice(stamps: seq<real>, earlier: real, now: real, window: real)
    requires earlier <= now
    ensures Recent(Recent(stamps, earlier, window), now, window) == Recent(stamps, now, window)
  {
    if stamps != [] {
      var init, last := stamps[..|stamps| - 1], stamps[|stamps| - 1];
      RecentTwice(init, earlier, now, window);
      var r := Recent(init, earlier, window);
      if earlier - last < window {
        RecentSnoc(r, last, now, window);
      } else {
        assert r + [] == r;
      }
    }
  }

  /** What is kept for a client is as good as everything ever granted to it. */
  lemma {:induction false} NothingRelevantLost(calls: seq<Call>, limits: Limits, client: Client, now: real)
    requires NonDecreasing(calls) && (calls != [] ==> calls[|calls| - 1].now <= now)
    ensures Recent(Stamps(After(calls, limits), client), now, limits.window)
         == Recent(Granted(calls, limits, client), now, limits.window)
  {
    if calls != [] {
      var init, call := calls[..|calls| - 1], calls[|calls| - 1];
      NothingRelevantLost(init, limits, client, now);
      if call.client == client {
        var was := Stamps(After(init, limits), client);
        RecentTwice(was, call.now, now, limits.window);
        if Grants(After(init, limits), call, limits) {
          RecentSnoc(Recent(was, call.now, limits.window), call.now, now, limits.window);
          RecentSnoc(Granted(init, limits, client), call.now, now, limits.window);
        } else {
          assert Granted(init, limits, client) + [] == Granted(init, limits, client);
        }
      } else {
        assert Granted(init, limits, client) + [] == Granted(init, limits, client);
      }
    }
  }

  /** The places of the stamps less than one window before `now`. */
  function Within(stamps: seq<real>, now: real, window: real): set<nat> {
    set i: nat | i < |stamps| && now - stamps[i] < window
  }

  lemma {:induction false} RecentCounts(stamps: seq<real>, now: real, window: real)
    ensures |Recent(stamps, now, window)| == |Within(stamps, now, window)|
  {
    if stamps != [] {
      var init, last := stamps[..|stamps| - 1], stamps[|stamps| - 1];
      RecentCounts(init, now, window);
      if now - last < window {
        assert Within(stamps, now, window) == Within(init, now, window) + {|stamps| - 1};
      } else {
        assert Within(stamps, now, window) == Within(init, now, window);
      }
    }
  }

  /** A client is refused exactly when the last window already holds as many of its grants as are allowed. */
  lemma RefusedIff(calls: seq<Call>, limits: Limits, call: Call)
    requires NonDecreasing(calls + [call])
    ensures Grants(After(calls, limits), call, limits) <==>
      |Within(Granted(calls, limits, call.client), call.now, limits.window)| < limits.attempts
  {
    RecentCounts(Granted(calls, limits, call.client), call.now, limits.window);
    var all := calls + [call];
    assert forall i :: 0 <= i < |calls| ==> all[i] == calls[i];
    assert all[|calls|] == call;
    NothingRelevantLost(calls, limits, call.client, call.now);
  }

  ghost predicate Sorted(stamps: seq<real>) {
    forall i, j :: 0 <= i < j < |stamps| ==> stamps[i] <= stamps[j]
  }

  ghost predicate UpTo(stamps: seq<real>, bound: real) {
    forall i :: 0 <= i < |stamps| ==> stamps[i] <= bound
  }

  lemma SortedSnoc(stamps: seq<real>, last: real)
    requires Sorted(stamps) && UpTo(stamps, last)
    ensures Sorted(stamps + [last]) && UpTo(stamps + [last], last)
  {
  }

  /** Grants come in the order of the clock, none after the last call. */
  lemma {:induction false} GrantedSorted(calls: seq<Call>, limits: Limits, client: Client)
    requires NonDecreasing(calls)
    ensures Sorted(Granted(calls, limits, client))
    ensures calls != [] ==> UpTo(Granted(calls, limits, client), calls[|calls| - 1].now)
  {
    if calls != [] {
      var init, last := calls[..|calls| - 1], calls[|calls| - 1];
      var before := Granted(init, limits, client);
      GrantedSorted(init, limits, client);
      assert UpTo(before, last.now) by {
        assert init != [] ==> init[|init| - 1].now <= last.now;
      }
      SortedSnoc(before, last.now);
      assert before + [] == before;
    }
  }

  /** In order, everything from a recent stamp on is recent. */
  lemma {:induction false} RecentTail(stamps: seq<real>, i: nat, now: real, window: real)
    requires Sorted(stamps) && i < |stamps| && now - stamps[i] < window
    ensures |Recent(stamps, now, window)| >= |stamps| - i
  {
    var init := stamps[..|stamps| - 1];
    if i < |init| {
      RecentTail(init, i, now, window);
    }
  }

  /** Any grants of one client that lie within a window of each other are at most as many as allowed. */
  lemma {:induction false} WindowBound(calls: seq<Call>, limits: Limits, client: Client, i: nat, j: nat)
    requires NonDecreasing(calls)
    requires i <= j < |Granted(calls, limits, client)|
    requires Granted(calls, limits, client)[j] - Granted(calls, limits, client)[i] < limits.window
    ensures j - i + 1 <= limits.attempts
    decreases |calls|
  {
    var init, call := calls[..|calls| - 1], calls[|calls| - 1];
    var before := Granted(init, limits, client);
    if j < |before| {
      WindowBound(init, limits, client, i, j);
    } else {
      assert calls == init + [call];
      RefusedIff(init, limits, call);
      GrantedSorted(init, limits, client);
      if i < |before| {
        RecentTail(before, i, call.now, limits.window);
        RecentCounts(before, call.now, limits.window);
      }
    }
  }

  function CallsOf(calls: seq<Call>, client: Client): seq<Call> {
    if calls == [] then []
    else
      CallsOf(calls[..|calls| - 1], client)
      + if calls[|calls| - 1].client == client then [calls[|calls| - 1]] else []
  }

  lemma OneMore(calls: seq<Call>, limits: Limits, client: Client, call: Call)
    ensures After(calls + [call], limits) == Next(After(calls, limits), call, limits)
    ensures Granted(calls + [call], limits, client) == Granted(calls, limits, client)
      + if call.client == client && Grants(After(calls, limits), call, limits) then [call.now] else []
  {
    assert (calls + [call])[..|calls|] == calls;
  }

  /** A call looks at its own client's stamps only. */
  lemma OwnStampsOnly(a: map<Client, seq<real>>, b: map<Client, seq<real>>, call: Call, limits: Limits, client: Client)
    requires Stamps(a, client) == Stamps(b, client)
    ensures call.client == client ==>
      && Grants(a, call, limits) == Grants(b, call, limits)
      && Stamps(Next(a, call, limits), client) == Stamps(Next(b, call, limits), client)
    ensures call.client != client ==> Stamps(Next(b, call, limits), client) == Stamps(b, client)
  {
  }

  /** No client is held back, or let through, by what another one does. */
  lemma {:induction false} ClientsAreIndependent(calls: seq<Call>, limits: Limits, client: Client)
    ensures Stamps(After(CallsOf(calls, client), limits), client) == Stamps(After(calls, limits), client)
    ensures Granted(CallsOf(calls, client), limits, client) == Granted(calls, limits, client)
  {
    if calls != [] {
      var init, call := calls[..|calls| - 1], calls[|calls| - 1];
      var own := CallsOf(init, client);
      ClientsAreIndependent(init, limits, client);
      assert calls == init + [call];
      OneMore(init, limits, client, call);
      OwnStampsOnly(After(own, limits), After(init, limits), call, limits, client);
      if call.client == client {
        assert CallsOf(calls, client) == own + [call];
        OneMore(own, limits, client, call);
      } else {
        assert CallsOf(calls, client) == own;
      }
    }
  }
}
