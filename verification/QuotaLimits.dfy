/**
 * What the ledger promises in the words of its policy: the reservations of a scope, counted and added up field by
 * field, stay within the limits the policy names, and a request is denied exactly when it would exceed one of them.
 */
module QuotaLimits {
  import opened Common
  import opened QuotaLedger
  import opened QuotaSafety

  // ----- adding up one field -----

  function Total(rs: seq<Request>, f: Request -> nat): nat {
    if rs == [] then 0 else Total(rs[..|rs| - 1], f) + f(rs[|rs| - 1])
  }

  /** The reservations that belong to a scope, but for one left out. */
  function Those(rs: seq<Request>, p: Request -> bool, except: Option<int>): seq<Request> {
    if rs == [] then []
    else
      var last := rs[|rs| - 1];
      Those(rs[..|rs| - 1], p, except) + if p(last) && except != Some(last.reservationId) then [last] else []
  }

  lemma ThoseMeans(rs: seq<Request>, p: Request -> bool, except: Option<int>, r: Request)
    ensures r in Those(rs, p, except) <==> r in rs && p(r) && except != Some(r.reservationId)
  {
    if rs != [] {
      var n := |rs| - 1;
      ThoseMeans(rs[..n], p, except, r);
      assert r in rs <==> r in rs[..n] || r == rs[n];
    }
  }

  /** The scope's members are those with `p`, and `f` is what each of them adds in the dimension. */
  ghost predicate Fields(policy: Policy, key: ScopeKey, d: Dimension, p: Request -> bool, f: Request -> nat) {
    forall r :: (InScope(policy, r, key) <==> p(r)) && Contribution(r, d) == f(r)
  }

  lemma PartIsField(policy: Policy, key: ScopeKey, d: Dimension, except: Option<int>, p: Request -> bool,
                    f: Request -> nat, r: Request)
    requires Fields(policy, key, d, p, f)
    ensures Part(policy, r, key, d, except) == if p(r) && except != Some(r.reservationId) then f(r) else 0
  {
  }

  lemma TotalOfThose(rs: seq<Request>, p: Request -> bool, except: Option<int>, f: Request -> nat)
    requires rs != []
    ensures var n := |rs| - 1;
            var added := if p(rs[n]) && except != Some(rs[n].reservationId) then f(rs[n]) else 0;
            Total(Those(rs, p, except), f) == Total(Those(rs[..n], p, except), f) + added
  {
    var n := |rs| - 1;
    var before := Those(rs[..n], p, except);
    if p(rs[n]) && except != Some(rs[n].reservationId) {
      assert Those(rs, p, except) == before + [rs[n]] && (before + [rs[n]])[..|before|] == before;
    } else {
      assert Those(rs, p, except) == before;
    }
  }

  lemma {:induction false} UsageIsTotal(policy: Policy, rs: seq<Request>, key: ScopeKey, d: Dimension,
                                        except: Option<int>, p: Request -> bool, f: Request -> nat)
    requires Fields(policy, key, d, p, f)
    ensures Usage(policy, rs, key, d, except) == Total(Those(rs, p, except), f)
  {
    if rs != [] {
      UsageIsTotal(policy, rs[..|rs| - 1], key, d, except, p, f);
      PartIsField(policy, key, d, except, p, f, rs[|rs| - 1]);
      TotalOfThose(rs, p, except, f);
    }
  }

  lemma {:induction false} TotalOfOnes(rs: seq<Request>)
    ensures Total(rs, (r: Request) => 1) == |rs|
  {
    if rs != [] { TotalOfOnes(rs[..|rs| - 1]); }
  }

  function Running(rs: seq<Request>): seq<Request> { Those(rs, (r: Request) => r.running, None) }

  function OneIfRunning(r: Request): nat { if r.running then 1 else 0 }

  lemma {:induction false} TotalOfRunning(rs: seq<Request>)
    ensures Total(rs, OneIfRunning) == |Running(rs)|
  {
    if rs != [] {
      TotalOfRunning(rs[..|rs| - 1]);
      assert Running(rs) == Running(rs[..|rs| - 1]) + if rs[|rs| - 1].running then [rs[|rs| - 1]] else [];
    }
  }

  // ----- the limits of one scope -----

  /** The reservations `rs` of one scope keep each of its limits. */
  ghost predicate Keep(limits: Limits, rs: seq<Request>) {
    && (Instances in limits ==> |rs| <= limits[Instances])
    && (RunningInstances in limits ==> |Running(rs)| <= limits[RunningInstances])
    && (CpuMillis in limits ==> Total(rs, (r: Request) => r.cpuMillis) <= limits[CpuMillis])
    && (MemoryBytes in limits ==> Total(rs, (r: Request) => r.memoryBytes) <= limits[MemoryBytes])
    && (Pids in limits ==> Total(rs, (r: Request) => r.pidsLimit) <= limits[Pids])
    && (VolumeBytes in limits ==> Total(rs, (r: Request) => r.volumeBytes.GetOr(0)) <= limits[VolumeBytes])
    && (ConcurrentBuilds in limits ==> Total(rs, (r: Request) => r.buildSlots.GetOr(0)) <= limits[ConcurrentBuilds])
    && (RolloutConcurrency in limits ==>
          Total(rs, (r: Request) => r.rolloutSlots.GetOr(0)) <= limits[RolloutConcurrency])
  }

  /** The request beside the reservations `rs` of one scope exceeds its limit in this dimension. */
  ghost predicate Over(limits: Limits, rs: seq<Request>, r: Request, d: Dimension) {
    d in limits &&
    match d
    case Instances => |rs| + 1 > limits[d]
    case RunningInstances => |Running(rs)| + (if r.running then 1 else 0) > limits[d]
    case CpuMillis => Total(rs, (x: Request) => x.cpuMillis) + r.cpuMillis > limits[d]
    case MemoryBytes => Total(rs, (x: Request) => x.memoryBytes) + r.memoryBytes > limits[d]
    case Pids => Total(rs, (x: Request) => x.pidsLimit) + r.pidsLimit > limits[d]
    case VolumeBytes => Total(rs, (x: Request) => x.volumeBytes.GetOr(0)) + r.volumeBytes.GetOr(0) > limits[d]
    case ConcurrentBuilds => Total(rs, (x: Request) => x.buildSlots.GetOr(0)) + r.buildSlots.GetOr(0) > limits[d]
    case RolloutConcurrency =>
      Total(rs, (x: Request) => x.rolloutSlots.GetOr(0)) + r.rolloutSlots.GetOr(0) > limits[d]
  }

  /** The usage of a scope is the number of its reservations, of its running ones, or the sum of one field. */
  lemma UsageMeans(policy: Policy, rs: seq<Request>, key: ScopeKey, except: Option<int>, p: Request -> bool)
    requires forall r :: InScope(policy, r, key) <==> p(r)
    ensures var ours := Those(rs, p, except);
            && Usage(policy, rs, key, Instances, except) == |ours|
            && Usage(policy, rs, key, RunningInstances, except) == |Running(ours)|
            && Usage(policy, rs, key, CpuMillis, except) == Total(ours, (r: Request) => r.cpuMillis)
            && Usage(policy, rs, key, MemoryBytes, except) == Total(ours, (r: Request) => r.memoryBytes)
            && Usage(policy, rs, key, Pids, except) == Total(ours, (r: Request) => r.pidsLimit)
            && Usage(policy, rs, key, VolumeBytes, except) == Total(ours, (r: Request) => r.volumeBytes.GetOr(0))
            && Usage(policy, rs, key, ConcurrentBuilds, except) == Total(ours, (r: Request) => r.buildSlots.GetOr(0))
            && Usage(policy, rs, key, RolloutConcurrency, except)
                 == Total(ours, (r: Request) => r.rolloutSlots.GetOr(0))
  {
    var ours := Those(rs, p, except);
    UsageIsTotal(policy, rs, key, Instances, except, p, (r: Request) => 1);
    TotalOfOnes(ours);
    UsageIsTotal(policy, rs, key, RunningInstances, except, p, OneIfRunning);
    TotalOfRunning(ours);
    RuntimeUsageMeans(policy, rs, key, except, p);
    SlotUsageMeans(policy, rs, key, except, p);
  }

  lemma RuntimeUsageMeans(policy: Policy, rs: seq<Request>, key: ScopeKey, except: Option<int>, p: Request -> bool)
    requires forall r :: InScope(policy, r, key) <==> p(r)
    ensures var ours := Those(rs, p, except);
            && Usage(policy, rs, key, CpuMillis, except) == Total(ours, (r: Request) => r.cpuMillis)
            && Usage(policy, rs, key, MemoryBytes, except) == Total(ours, (r: Request) => r.memoryBytes)
            && Usage(policy, rs, key, Pids, except) == Total(ours, (r: Request) => r.pidsLimit)
  {
    UsageIsTotal(policy, rs, key, CpuMillis, except, p, (r: Request) => r.cpuMillis);
    UsageIsTotal(policy, rs, key, MemoryBytes, except, p, (r: Request) => r.memoryBytes);
    UsageIsTotal(policy, rs, key, Pids, except, p, (r: Request) => r.pidsLimit);
  }

  lemma SlotUsageMeans(policy: Policy, rs: seq<Request>, key: ScopeKey, except: Option<int>, p: Request -> bool)
    requires forall r :: InScope(policy, r, key) <==> p(r)
    ensures var ours := Those(rs, p, except);
            && Usage(policy, rs, key, VolumeBytes, except) == Total(ours, (r: Request) => r.volumeBytes.GetOr(0))
            && Usage(policy, rs, key, ConcurrentBuilds, except) == Total(ours, (r: Request) => r.buildSlots.GetOr(0))
            && Usage(policy, rs, key, RolloutConcurrency, except)
                 == Total(ours, (r: Request) => r.rolloutSlots.GetOr(0))
  {
    UsageIsTotal(policy, rs, key, VolumeBytes, except, p, (r: Request) => r.volumeBytes.GetOr(0));
    UsageIsTotal(policy, rs, key, ConcurrentBuilds, except, p, (r: Request) => r.buildSlots.GetOr(0));
    UsageIsTotal(policy, rs, key, RolloutConcurrency, except, p, (r: Request) => r.rolloutSlots.GetOr(0));
  }

  lemma WithinKeeps(policy: Policy, rs: seq<Request>, key: ScopeKey, limits: Limits, p: Request -> bool)
    requires Within(policy, rs) && LimitsOf(policy, key) == Some(limits)
    requires forall r :: InScope(policy, r, key) <==> p(r)
    ensures Keep(limits, Those(rs, p, None))
  {
    UsageMeans(policy, rs, key, None, p);
    forall d | d in limits ensures Usage(policy, rs, key, d, None) <= limits[d] {
      assert Limited(policy, key, d) && Limit(policy, key, d) == limits[d];
    }
  }

  lemma ExceedsIsOver(policy: Policy, rs: seq<Request>, r: Request, except: Option<int>, key: ScopeKey, limits: Limits,
                      p: Request -> bool, d: Dimension)
    requires LimitsOf(policy, key) == Some(limits) && forall x :: InScope(policy, x, key) <==> p(x)
    ensures Exceeds(policy, rs, r, except, key, d) <==> Over(limits, Those(rs, p, except), r, d)
  {
    UsageMeans(policy, rs, key, except, p);
  }

  // ----- the four kinds of scope -----

  /**
   * Through every run of calls: all reservations together, those of each tenant, of each user and of each provider the
   * policy names keep every limit named for them, field by field.
   */
  lemma EveryScopeKeepsItsLimits(policy: Policy, available: bool, calls: seq<Call>)
    ensures var rs := Run(policy, Ledger(available, []), calls).reservations;
            && (policy.global.Some? ==> Keep(policy.global.value, Those(rs, (r: Request) => true, None)))
            && (forall t :: t in policy.tenants ==>
                  Keep(policy.tenants[t], Those(rs, (r: Request) => r.tenantId == Some(t), None)))
            && (forall u :: u in policy.users ==>
                  Keep(policy.users[u], Those(rs, (r: Request) => r.userId == u, None)))
            && (forall x :: x in policy.providers ==>
                  Keep(policy.providers[x], Those(rs, (r: Request) => r.providerId == x, None)))
  {
    EmptyIsWithin(policy, available);
    UsageNeverExceedsLimits(policy, Ledger(available, []), calls);
    var rs := Run(policy, Ledger(available, []), calls).reservations;
    if policy.global.Some? { WithinKeeps(policy, rs, Global, policy.global.value, (r: Request) => true); }
    forall t | t in policy.tenants
      ensures Keep(policy.tenants[t], Those(rs, (r: Request) => r.tenantId == Some(t), None))
    {
      WithinKeeps(policy, rs, Tenant(t), policy.tenants[t], (r: Request) => r.tenantId == Some(t));
    }
    forall u | u in policy.users ensures Keep(policy.users[u], Those(rs, (r: Request) => r.userId == u, None)) {
      WithinKeeps(policy, rs, User(u), policy.users[u], (r: Request) => r.userId == u);
    }
    forall x | x in policy.providers
      ensures Keep(policy.providers[x], Those(rs, (r: Request) => r.providerId == x, None))
    {
      WithinKeeps(policy, rs, Provider(x), policy.providers[x], (r: Request) => r.providerId == x);
    }
  }

  /** The reservations the request would stand beside in a scope it belongs to, and the limits of that scope. */
  datatype Place = Place(key: ScopeKey, limits: Limits, others: seq<Request>)

  /** Where the request counts: everywhere the policy names, under its own tenant, user and provider. */
  function Places(policy: Policy, rs: seq<Request>, r: Request, except: Option<int>): set<Place> {
    (if policy.global.Some? then {Place(Global, policy.global.value, Those(rs, (x: Request) => true, except))} else {})
    + (if r.tenantId.Some? && r.tenantId.value in policy.tenants
       then {Place(Tenant(r.tenantId.value), policy.tenants[r.tenantId.value],
                   Those(rs, (x: Request) => x.tenantId == r.tenantId, except))} else {})
    + (if r.userId in policy.users
       then {Place(User(r.userId), policy.users[r.userId], Those(rs, (x: Request) => x.userId == r.userId, except))}
       else {})
    + (if r.providerId in policy.providers
       then {Place(Provider(r.providerId), policy.providers[r.providerId],
                   Those(rs, (x: Request) => x.providerId == r.providerId, except))} else {})
  }

  ghost predicate TooMuch(policy: Policy, rs: seq<Request>, r: Request, except: Option<int>) {
    exists place, d :: place in Places(policy, rs, r, except) && Over(place.limits, place.others, r, d)
  }

  lemma InPlaces(policy: Policy, rs: seq<Request>, r: Request, except: Option<int>, key: ScopeKey)
    returns (place: Place)
    requires InScope(policy, r, key)
    ensures place in Places(policy, rs, r, except) && place.key == key && LimitsOf(policy, key) == Some(place.limits)
    ensures forall d :: Exceeds(policy, rs, r, except, key, d) <==> Over(place.limits, place.others, r, d)
  {
    var p: Request -> bool := match key
      case Global => (x: Request) => true
      case Tenant(_) => (x: Request) => x.tenantId == r.tenantId
      case User(_) => (x: Request) => x.userId == r.userId
      case Provider(_) => (x: Request) => x.providerId == r.providerId;
    place := Place(key, LimitsOf(policy, key).value, Those(rs, p, except));
    forall d ensures Exceeds(policy, rs, r, except, key, d) <==> Over(place.limits, place.others, r, d) {
      ExceedsIsOver(policy, rs, r, except, key, place.limits, p, d);
    }
  }

  lemma PlaceIsInScope(policy: Policy, rs: seq<Request>, r: Request, except: Option<int>, place: Place)
    requires place in Places(policy, rs, r, except)
    ensures InScope(policy, r, place.key)
    ensures forall d :: Exceeds(policy, rs, r, except, place.key, d) <==> Over(place.limits, place.others, r, d)
  {
    var same := InPlaces(policy, rs, r, except, place.key);
    assert same == place;
  }

  /** A request is denied exactly if it would be too much in one place and dimension, and the denial names one. */
  lemma DeniedIffTooMuch(policy: Policy, rs: seq<Request>, r: Request, except: Option<int>)
    ensures var denial := DenialFrom(policy, rs, r, except, 0);
            && (denial.Some? <==> TooMuch(policy, rs, r, except))
            && (denial.Some? ==>
                  exists place :: place in Places(policy, rs, r, except) && place.key == denial.value.scope &&
                    Over(place.limits, place.others, r, denial.value.dimension))
  {
    DeniedIffItDoesNotFit(policy, rs, r, except);
    var denial := DenialFrom(policy, rs, r, except, 0);
    if denial.Some? {
      var place := InPlaces(policy, rs, r, except, denial.value.scope);
      assert Over(place.limits, place.others, r, denial.value.dimension);
    }
    if place, d :| place in Places(policy, rs, r, except) && Over(place.limits, place.others, r, d) {
      PlaceIsInScope(policy, rs, r, except, place);
      assert Exceeds(policy, rs, r, except, place.key, d);
    }
  }

  // ----- what a call answers -----

  /** A request is read field by field; identifiers must parse, sizes be positive, optional ones not negative. */
  lemma NormalizedMeans(raw: RawRequest)
    ensures Normalize(raw).Some? <==>
              && raw.reservationId.Some? && raw.userId.Some? && raw.providerId.Some? && raw.running.Some?
              && raw.tenantId != Some(None)
              && 0 < raw.cpuMillis <= 9007199254740991 && 0 < raw.memoryBytes <= 9007199254740991
              && 0 < raw.pidsLimit <= 9007199254740991
              && 0 <= raw.volumeBytes.GetOr(0) <= 9007199254740991
              && 0 <= raw.buildSlots.GetOr(0) <= 9007199254740991
              && 0 <= raw.rolloutSlots.GetOr(0) <= 9007199254740991
    ensures Normalize(raw).Some? ==>
              var r := Normalize(raw).value;
              && raw.reservationId == Some(r.reservationId) && raw.userId == Some(r.userId)
              && raw.providerId == Some(r.providerId) && raw.running == Some(r.running)
              && r.tenantId == raw.tenantId.GetOr(None)
              && r.cpuMillis == raw.cpuMillis && r.memoryBytes == raw.memoryBytes && r.pidsLimit == raw.pidsLimit
              && (r.volumeBytes.Some? <==> raw.volumeBytes.Some?)
              && (r.buildSlots.Some? <==> raw.buildSlots.Some?) && (r.rolloutSlots.Some? <==> raw.rolloutSlots.Some?)
              && r.volumeBytes.GetOr(0) == raw.volumeBytes.GetOr(0)
              && r.buildSlots.GetOr(0) == raw.buildSlots.GetOr(0)
              && r.rolloutSlots.GetOr(0) == raw.rolloutSlots.GetOr(0)
  {
  }

  /**
   * A request that does not parse, or whose id is held for something else, conflicts.  The very reservation that is
   * held is granted again.  A new one is refused while the ledger is away, denied exactly if it would be too much, and
   * else granted; only then, and only by `reserve`, is it stored.
   */
  lemma ReserveAnswers(policy: Policy, l: Ledger, raw: RawRequest)
    requires UniqueIds(l.reservations)
    ensures var (next, answer) := Respond(policy, l, ReserveCall(raw));
            && Respond(policy, l, AdmitCall(raw)) == (l, answer)
            && (Normalize(raw).None? ==> answer == Conflict && next == l)
            && (Normalize(raw).Some? ==>
                  var r := Normalize(raw).value;
                  && (r in l.reservations ==> answer == Admitted(r) && next == l)
                  && (Holds(l.reservations, r.reservationId) && r !in l.reservations ==>
                        answer == Conflict && next == l)
                  && (!Holds(l.reservations, r.reservationId) ==>
                        if !l.available then answer == Unavailable && next == l
                        else if TooMuch(policy, l.reservations, r, None) then answer.Denied? && next == l
                        else answer == Admitted(r) && next == l.(reservations := l.reservations + [r])))
  {
    if Normalize(raw).Some? {
      var r := Normalize(raw).value;
      DeniedIffTooMuch(policy, l.reservations, r, None);
      if r in l.reservations {
        var i :| 0 <= i < |l.reservations| && l.reservations[i] == r;
        IndexIsUnique(l.reservations, i);
      }
    }
  }

  /**
   * An unknown reservation is not found and one already in the asked state is left as it is; any other move is refused
   * while the ledger is away, denied exactly if it would be too much beside the others, and else stored in place.
   */
  lemma TransitionAnswers(policy: Policy, l: Ledger, id: int, running: bool)
    requires UniqueIds(l.reservations)
    ensures var (next, answer) := Respond(policy, l, TransitionCall(id, running));
            && (!Holds(l.reservations, id) ==> answer == Found(false) && next == l)
            && (forall i :: 0 <= i < |l.reservations| && l.reservations[i].reservationId == id ==>
                  var r := l.reservations[i].(running := running);
                  if l.reservations[i].running == running then answer == Found(true) && next == l
                  else if !l.available then answer == Unavailable && next == l
                  else if TooMuch(policy, l.reservations, r, Some(id)) then answer.Denied? && next == l
                  else answer == Found(true) && next == l.(reservations := l.reservations[i := r]))
  {
    forall i | 0 <= i < |l.reservations| && l.reservations[i].reservationId == id
      ensures IndexOf(l.reservations, id) == i
    {
      IndexIsUnique(l.reservations, i);
    }
    if Holds(l.reservations, id) {
      DeniedIffTooMuch(policy, l.reservations, l.reservations[IndexOf(l.reservations, id)].(running := running),
                       Some(id));
    }
  }

  /** A release takes exactly the reservation of that id away, if there is one. */
  lemma ReleaseAnswers(policy: Policy, l: Ledger, id: int)
    requires UniqueIds(l.reservations)
    ensures var (next, answer) := Respond(policy, l, ReleaseCall(id));
            && answer == Found(Holds(l.reservations, id)) && next.available == l.available
            && !Holds(next.reservations, id)
            && (forall r :: r in next.reservations <==> r in l.reservations && r.reservationId != id)
  {
    var rs := l.reservations;
    var i := IndexOf(rs, id);
    if i < |rs| {
      var after := Removed(rs, i);
      forall k | 0 <= k < |after| ensures after[k] == rs[if k < i then k else k + 1] {}
      forall r | r in rs && r.reservationId != id ensures r in after {
        var k :| 0 <= k < |rs| && rs[k] == r;
        assert after[if k < i then k else k - 1] == r;
      }
    }
  }
}
