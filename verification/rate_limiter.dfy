/**
 * The per-user sliding-window rate limiter: a call is allowed while fewer
 * than `max_calls` of the user's recorded calls lie within the last
 * `period` seconds. The clock reading is a parameter.
 */
module RateLimiter {

  datatype Limiter = Limiter(maxCalls: int, period: real, calls: map<string, seq<real>>)

  /** A fresh limiter: no calls recorded; the period defaults to 60 seconds. */
  function Init(maxCalls: int, period: real := 60.0): (r: Limiter)
    ensures Bounded(r) && r.calls == map[]
  {
    Limiter(maxCalls, period, map[])
  }

  /** The user's recorded calls; an unseen user has none. */
  function CallsOf(l: Limiter, user: string): seq<real> {
    if user in l.calls then l.calls[user] else []
  }

  /** The calls still inside the window at `now`, in their recorded order. */
  function Prune(ts: seq<real>, now: real, period: real): (r: seq<real>)
    ensures |r| <= |ts|
    ensures forall t :: t in r <==> t in ts && now - t < period
    ensures forall t :: multiset(r)[t] == (if now - t < period then multiset(ts)[t] else 0)
    decreases |ts|
  {
    if ts == [] then []
    else
      var rest := Prune(ts[1..], now, period);
      assert forall t :: t in ts <==> t == ts[0] || t in ts[1..];
      assert ts == [ts[0]] + ts[1..];
      assert multiset(ts) == multiset{ts[0]} + multiset(ts[1..]);
      if now - ts[0] < period then [ts[0]] + rest else rest
  }

  function Max0(n: int): nat {
    if n < 0 then 0 else n
  }

  /** No user has more recorded calls than the limit allows. */
  ghost predicate Bounded(l: Limiter) {
    forall u :: u in l.calls ==> |l.calls[u]| <= Max0(l.maxCalls)
  }

  /**
   * `is_allowed`: prunes the user's calls to the window (and stores the
   * pruned list even when denying); denies when the retained count reaches
   * the limit; otherwise records `now` and allows. Other users' calls are
   * untouched.
   */
  function IsAllowed(l: Limiter, user: string, now: real): (r: (bool, Limiter))
    ensures r.1.calls.Keys == l.calls.Keys + {user}
    ensures var kept := Prune(CallsOf(l, user), now, l.period);
      && (r.0 <==> |kept| < l.maxCalls)
      && r.1.calls[user] == (if r.0 then kept + [now] else kept)
    ensures r.1.maxCalls == l.maxCalls && r.1.period == l.period
    ensures forall u :: u in l.calls && u != user ==> r.1.calls[u] == l.calls[u]
    ensures forall t :: t in r.1.calls[user] ==> t == now || (t in CallsOf(l, user) && now - t < l.period)
  {
    var kept := Prune(CallsOf(l, user), now, l.period);
    if |kept| >= l.maxCalls then (false, l.(calls := l.calls[user := kept]))
    else (true, l.(calls := l.calls[user := kept + [now]]))
  }

  /** After any call no user holds more than `max_calls` timestamps. */
  lemma StaysBounded(l: Limiter, user: string, now: real)
    requires Bounded(l)
    ensures Bounded(IsAllowed(l, user, now).1)
  {
    var l' := IsAllowed(l, user, now).1;
    assert |CallsOf(l, user)| <= Max0(l.maxCalls);
    forall u | u in l'.calls ensures |l'.calls[u]| <= Max0(l.maxCalls) {
      if u != user {
        assert l'.calls[u] == l.calls[u];
      }
    }
  }

  /** One user's call does not change whether another user's call is allowed, nor what is stored for them. */
  lemma UsersIndependent(l: Limiter, a: string, b: string, t1: real, t2: real)
    requires a != b
    ensures var l1 := IsAllowed(l, a, t1).1;
      IsAllowed(l1, b, t2).0 == IsAllowed(l, b, t2).0
      && IsAllowed(l1, b, t2).1.calls[b] == IsAllowed(l, b, t2).1.calls[b]
  {
    var l1 := IsAllowed(l, a, t1).1;
    assert CallsOf(l1, b) == CallsOf(l, b);
  }

  /** With a positive period, a full window keeps denying until some recorded call ages out. */
  lemma DeniedUntilExpiry(l: Limiter, user: string, now: real, later: real)
    requires l.period > 0.0 && now <= later
    requires !IsAllowed(l, user, now).0
    requires forall t :: t in CallsOf(l, user) && now - t < l.period ==> later - t < l.period
    ensures !IsAllowed(IsAllowed(l, user, now).1, user, later).0
  {
    var l1 := IsAllowed(l, user, now).1;
    var kept := Prune(CallsOf(l, user), now, l.period);
    PruneKeepsAll(kept, later, l.period);
  }

  /** Pruning keeps a list whose every element is inside the window. */
  lemma {:induction false} PruneKeepsAll(ts: seq<real>, now: real, period: real)
    requires forall t :: t in ts ==> now - t < period
    ensures Prune(ts, now, period) == ts
    decreases |ts|
  {
    if ts != [] {
      assert ts[0] in ts;
      assert forall t :: t in ts[1..] ==> t in ts;
      PruneKeepsAll(ts[1..], now, period);
      assert [ts[0]] + ts[1..] == ts;
    }
  }
}
