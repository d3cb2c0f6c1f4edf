/** What the quota ledger means: sums of live reservations per scope and dimension, and the effect of each call. */
module QuotaLedger {
  import opened Common

  const MAX_SAFE_INTEGER := 9007199254740991

  datatype Dimension =
    Instances | RunningInstances | CpuMillis | MemoryBytes | Pids | VolumeBytes | ConcurrentBuilds | RolloutConcurrency

  const DIMENSIONS: seq<Dimension> :=
    [Instances, RunningInstances, CpuMillis, MemoryBytes, Pids, VolumeBytes, ConcurrentBuilds, RolloutConcurrency]

  datatype ScopeKey = Global | Tenant(id: int) | User(id: int) | Provider(id: int)

  type Limits = map<Dimension, nat>

  datatype Policy = Policy(
    global: Option<Limits>,
    tenants: map<int, Limits>,
    users: map<int, Limits>,
    providers: map<int, Limits>)

  datatype Request = Request(
    reservationId: int,
    userId: int,
    tenantId: Option<int>,
    providerId: int,
    running: bool,
    cpuMillis: nat,
    memoryBytes: nat,
    pidsLimit: nat,
    volumeBytes: Option<nat>,
    buildSlots: Option<nat>,
    rolloutSlots: Option<nat>)

  /** A request as it arrives: an identifier or state that does not parse is `None`, numbers are any integers. */
  datatype RawRequest = RawRequest(
    reservationId: Option<int>,
    userId: Option<int>,
    tenantId: Option<Option<int>>,
    providerId: Option<int>,
    running: Option<bool>,
    cpuMillis: int,
    memoryBytes: int,
    pidsLimit: int,
    volumeBytes: Option<int>,
    buildSlots: Option<int>,
    rolloutSlots: Option<int>)

  predicate Positive(n: int) { 0 < n <= MAX_SAFE_INTEGER }

  predicate Optional(n: Option<int>) { n.Some? ==> 0 <= n.value <= MAX_SAFE_INTEGER }

  function Size(n: Option<int>): Option<nat>
    requires Optional(n)
  {
    if n.Some? then Some(n.value as nat) else None
  }

  function Normalize(raw: RawRequest): (r: Option<Request>)
    ensures r.Some? ==> raw.reservationId == Some(r.value.reservationId) && r.value.cpuMillis > 0
  {
    if raw.reservationId.None? || raw.userId.None? || raw.providerId.None? || raw.running.None?
       || raw.tenantId == Some(None)
       || !Positive(raw.cpuMillis) || !Positive(raw.memoryBytes) || !Positive(raw.pidsLimit)
       || !Optional(raw.volumeBytes) || !Optional(raw.buildSlots) || !Optional(raw.rolloutSlots)
    then None
    else Some(Request(
      raw.reservationId.value, raw.userId.value, if raw.tenantId.Some? then raw.tenantId.value else None,
      raw.providerId.value, raw.running.value, raw.cpuMillis, raw.memoryBytes, raw.pidsLimit,
      Size(raw.volumeBytes), Size(raw.buildSlots), Size(raw.rolloutSlots)))
  }

  function Contribution(r: Request, d: Dimension): nat {
    match d
    case Instances => 1
    case RunningInstances => if r.running then 1 else 0
    case CpuMillis => r.cpuMillis
    case MemoryBytes => r.memoryBytes
    case Pids => r.pidsLimit
    case VolumeBytes => r.volumeBytes.GetOr(0)
    case ConcurrentBuilds => r.buildSlots.GetOr(0)
    case RolloutConcurrency => r.rolloutSlots.GetOr(0)
  }

  // ----- scopes -----

  datatype Scope = Scope(key: ScopeKey, limits: Limits)

  /** The scopes the code walks through, in its order. */
  function ScopesFor(policy: Policy, r: Request): seq<Scope> {
    (if policy.global.Some? then [Scope(Global, policy.global.value)] else [])
    + (if r.tenantId.Some? && r.tenantId.value in policy.tenants
       then [Scope(Tenant(r.tenantId.value), policy.tenants[r.tenantId.value])] else [])
    + (if r.userId in policy.users then [Scope(User(r.userId), policy.users[r.userId])] else [])
    + (if r.providerId in policy.providers then [Scope(Provider(r.providerId), policy.providers[r.providerId])] else [])
  }

  /** Whether the policy names the scope at all, and its limits if so. */
  function LimitsOf(policy: Policy, key: ScopeKey): Option<Limits> {
    match key
    case Global => policy.global
    case Tenant(id) => if id in policy.tenants then Some(policy.tenants[id]) else None
    case User(id) => if id in policy.users then Some(policy.users[id]) else None
    case Provider(id) => if id in policy.providers then Some(policy.providers[id]) else None
  }

  predicate InScope(policy: Policy, r: Request, key: ScopeKey) {
    && LimitsOf(policy, key).Some?
    && match key
       case Global => true
       case Tenant(id) => r.tenantId == Some(id)
       case User(id) => r.userId == id
       case Provider(id) => r.providerId == id
  }

  /** The walked scopes are exactly the named scopes the request belongs to, each once, with the policy's limits. */
  lemma ScopesAreThoseInScope(policy: Policy, r: Request, key: ScopeKey)
    ensures InScope(policy, r, key) <==>
        exists i :: 0 <= i < |ScopesFor(policy, r)| && ScopesFor(policy, r)[i].key == key
    ensures forall i :: 0 <= i < |ScopesFor(policy, r)| && ScopesFor(policy, r)[i].key == key ==>
              LimitsOf(policy, key) == Some(ScopesFor(policy, r)[i].limits)
  {
    if InScope(policy, r, key) {
      var limits := LimitsOf(policy, key).value;
      assert Scope(key, limits) in ScopesFor(policy, r);
    }
  }

  lemma ScopesAreDistinct(policy: Policy, r: Request)
    ensures forall i, j :: 0 <= i < j < |ScopesFor(policy, r)| ==>
        ScopesFor(policy, r)[i].key != ScopesFor(policy, r)[j].key
  {
  }

  // ----- sums -----

  /** What one reservation adds to a scope, unless it is the one left out. */
  function Part(policy: Policy, r: Request, key: ScopeKey, d: Dimension, except: Option<int>): nat {
    if except == Some(r.reservationId) || !InScope(policy, r, key) then 0 else Contribution(r, d)
  }

  function Usage(policy: Policy, rs: seq<Request>, key: ScopeKey, d: Dimension, except: Option<int>): nat {
    if rs == [] then 0
    else Usage(policy, rs[..|rs| - 1], key, d, except) + Part(policy, rs[|rs| - 1], key, d, except)
  }

  lemma {:induction false} UsageOfUpdate(policy: Policy, rs: seq<Request>, i: nat, r: Request, key: ScopeKey,
                                         d: Dimension, except: Option<int>)
    requires i < |rs|
    ensures Usage(policy, rs[i := r], key, d, except)
         == Usage(policy, rs, key, d, except) - Part(policy, rs[i], key, d, except) + Part(policy, r, key, d, except)
  {
    var n := |rs| - 1;
    if i == n {
      assert rs[i := r][..n] == rs[..n];
    } else {
      assert rs[i := r][..n] == rs[..n][i := r];
      UsageOfUpdate(policy, rs[..n], i, r, key, d, except);
    }
  }

  function Removed(rs: seq<Request>, i: nat): seq<Request>
    requires i < |rs|
  {
    rs[..i] + rs[i + 1..]
  }

  lemma {:induction false} UsageOfRemoval(policy: Policy, rs: seq<Request>, i: nat, key: ScopeKey, d: Dimension,
                                          except: Option<int>)
    requires i < |rs|
    ensures Usage(policy, Removed(rs, i), key, d, except)
         == Usage(policy, rs, key, d, except) - Part(policy, rs[i], key, d, except)
  {
    var n := |rs| - 1;
    if i == n {
      assert Removed(rs, i) == rs[..n];
    } else {
      assert Removed(rs, i)[..n - 1] == Removed(rs[..n], i);
      UsageOfRemoval(policy, rs[..n], i, key, d, except);
    }
  }

  lemma UsageOfAppend(policy: Policy, rs: seq<Request>, r: Request, key: ScopeKey, d: Dimension, except: Option<int>)
    ensures Usage(policy, rs + [r], key, d, except) ==
        Usage(policy, rs, key, d, except) + Part(policy, r, key, d, except)
  {
    assert (rs + [r])[..|rs|] == rs;
  }

  predicate UniqueIds(rs: seq<Request>) {
    forall i, j :: 0 <= i < j < |rs| ==> rs[i].reservationId != rs[j].reservationId
  }

  predicate Holds(rs: seq<Request>, id: int) {
    exists i :: 0 <= i < |rs| && rs[i].reservationId == id
  }

  /** Map lookup: the position of a reservation, or the length if there is none. */
  function IndexOf(rs: seq<Request>, id: int): (i: nat)
    ensures i <= |rs|
    ensures i < |rs| ==> rs[i].reservationId == id
    ensures i == |rs| <==> !Holds(rs, id)
  {
    if rs == [] then 0
    else if rs[0].reservationId == id then 0
    else
      var i := IndexOf(rs[1..], id);
      assert i == |rs| - 1 ==> forall k :: 0 < k < |rs| ==> rs[k] == rs[1..][k - 1];
      1 + i
  }

  /** Leaving a reservation out of the sum subtracts exactly what it adds. */
  lemma {:induction false} UsageExcept(policy: Policy, rs: seq<Request>, id: int, key: ScopeKey, d: Dimension)
    requires UniqueIds(rs)
    ensures !Holds(rs, id) ==> Usage(policy, rs, key, d, Some(id)) == Usage(policy, rs, key, d, None)
    ensures forall i :: 0 <= i < |rs| && rs[i].reservationId == id ==>
              Usage(policy, rs, key, d, Some(id)) == Usage(policy, rs, key, d, None) - Part(policy, rs[i], key, d, None)
  {
    if rs != [] {
      var n := |rs| - 1;
      UsageExcept(policy, rs[..n], id, key, d);
      forall i | 0 <= i < |rs| && rs[i].reservationId == id
        ensures Usage(policy, rs, key, d, Some(id)) ==
            Usage(policy, rs, key, d, None) - Part(policy, rs[i], key, d, None)
      {
        if i == n {
          assert !Holds(rs[..n], id);
        } else {
          assert rs[..n][i] == rs[i];
        }
      }
    }
  }

  // ----- limits -----

  predicate Limited(policy: Policy, key: ScopeKey, d: Dimension) {
    LimitsOf(policy, key).Some? && d in LimitsOf(policy, key).value
  }

  function Limit(policy: Policy, key: ScopeKey, d: Dimension): nat
    requires Limited(policy, key, d)
  {
    LimitsOf(policy, key).value[d]
  }

  /** Usage within the limit in every scope and dimension the policy limits. */
  ghost predicate Within(policy: Policy, rs: seq<Request>) {
    forall key, d {:trigger Limited(policy, key, d)} ::
      Limited(policy, key, d) ==> Usage(policy, rs, key, d, None) <= Limit(policy, key, d)
  }

  predicate Exceeds(policy: Policy, rs: seq<Request>, r: Request, except: Option<int>, key: ScopeKey, d: Dimension) {
    && Limited(policy, key, d)
    && Usage(policy, rs, key, d, except) + Contribution(r, d) > Limit(policy, key, d)
  }

  /** A request fits when it exceeds nothing in any scope it belongs to. */
  ghost predicate Fits(policy: Policy, rs: seq<Request>, r: Request, except: Option<int>) {
    forall key, d {:trigger Exceeds(policy, rs, r, except, key, d)} ::
      InScope(policy, r, key) ==> !Exceeds(policy, rs, r, except, key, d)
  }

  datatype Denial = Denial(dimension: Dimension, scope: ScopeKey)

  /** The first dimension from position `j` on that exceeds the scope. */
  function DenialIn(policy: Policy, rs: seq<Request>, r: Request, except: Option<int>, key: ScopeKey,
                    j: nat): (denial: Option<Denial>)
    requires j <= |DIMENSIONS|
    ensures denial.None? <==> forall k :: j <= k < |DIMENSIONS| ==> !Exceeds(policy, rs, r, except, key, DIMENSIONS[k])
    ensures denial.Some? ==> denial.value.scope == key && Exceeds(policy, rs, r, except, key, denial.value.dimension)
    decreases |DIMENSIONS| - j
  {
    if j == |DIMENSIONS| then None
    else if Exceeds(policy, rs, r, except, key, DIMENSIONS[j]) then Some(Denial(DIMENSIONS[j], key))
    else DenialIn(policy, rs, r, except, key, j + 1)
  }

  /** The first denial from scope `i` on. */
  function DenialFrom(policy: Policy, rs: seq<Request>, r: Request, except: Option<int>,
                      i: nat): (denial: Option<Denial>)
    requires i <= |ScopesFor(policy, r)|
    decreases |ScopesFor(policy, r)| - i
  {
    if i == |ScopesFor(policy, r)| then None
    else
      var here := DenialIn(policy, rs, r, except, ScopesFor(policy, r)[i].key, 0);
      if here.Some? then here else DenialFrom(policy, rs, r, except, i + 1)
  }

  lemma EveryDimension(d: Dimension)
    ensures exists k :: 0 <= k < |DIMENSIONS| && DIMENSIONS[k] == d
  {
    match d
    case Instances => assert DIMENSIONS[0] == d;
    case RunningInstances => assert DIMENSIONS[1] == d;
    case CpuMillis => assert DIMENSIONS[2] == d;
    case MemoryBytes => assert DIMENSIONS[3] == d;
    case Pids => assert DIMENSIONS[4] == d;
    case VolumeBytes => assert DIMENSIONS[5] == d;
    case ConcurrentBuilds => assert DIMENSIONS[6] == d;
    case RolloutConcurrency => assert DIMENSIONS[7] == d;
  }

  ghost predicate FitsScope(policy: Policy, rs: seq<Request>, r: Request, except: Option<int>, key: ScopeKey) {
    forall d :: !Exceeds(policy, rs, r, except, key, d)
  }

  lemma DenialInMeans(policy: Policy, rs: seq<Request>, r: Request, except: Option<int>, key: ScopeKey)
    ensures DenialIn(policy, rs, r, except, key, 0).None? <==> FitsScope(policy, rs, r, except, key)
  {
    if DenialIn(policy, rs, r, except, key, 0).None? {
      forall d ensures !Exceeds(policy, rs, r, except, key, d) {
        EveryDimension(d);
      }
    }
  }

  lemma {:induction false} DenialFromMeans(policy: Policy, rs: seq<Request>, r: Request, except: Option<int>, i: nat)
    requires i <= |ScopesFor(policy, r)|
    ensures var scopes := ScopesFor(policy, r);
            var denial := DenialFrom(policy, rs, r, except, i);
            && (denial.None? <==> forall s :: i <= s < |scopes| ==> FitsScope(policy, rs, r, except, scopes[s].key))
            && (denial.Some? ==> && Exceeds(policy, rs, r, except, denial.value.scope, denial.value.dimension)
                                 && exists s :: i <= s < |scopes| && scopes[s].key == denial.value.scope)
    decreases |ScopesFor(policy, r)| - i
  {
    var scopes := ScopesFor(policy, r);
    if i < |scopes| {
      DenialInMeans(policy, rs, r, except, scopes[i].key);
      DenialFromMeans(policy, rs, r, except, i + 1);
      assert DenialFrom(policy, rs, r, except, i) ==
          (var here := DenialIn(policy, rs, r, except, scopes[i].key, 0);
           if here.Some? then here else DenialFrom(policy, rs, r, except, i + 1));
    }
  }

  /** A request is denied exactly when it does not fit, and the denial names a scope and dimension it really exceeds. */
  lemma DeniedIffItDoesNotFit(policy: Policy, rs: seq<Request>, r: Request, except: Option<int>)
    ensures DenialFrom(policy, rs, r, except, 0).None? <==> Fits(policy, rs, r, except)
    ensures var denial := DenialFrom(policy, rs, r, except, 0);
            denial.Some? ==> InScope(policy, r, denial.value.scope)
                             && Exceeds(policy, rs, r, except, denial.value.scope, denial.value.dimension)
  {
    DenialFromMeans(policy, rs, r, except, 0);
    forall key
      ensures InScope(policy, r, key) <==>
          exists i :: 0 <= i < |ScopesFor(policy, r)| && ScopesFor(policy, r)[i].key == key
    {
      ScopesAreThoseInScope(policy, r, key);
    }
  }

  // ----- calls -----

  datatype Ledger = Ledger(available: bool, reservations: seq<Request>)

  datatype Answer =
    | Admitted(request: Request)
    | Denied(denial: Denial)
    | Unavailable
    | Conflict
    | Found(found: bool)

  datatype Call =
    | AdmitCall(raw: RawRequest)
    | ReserveCall(raw: RawRequest)
    | TransitionCall(id: int, running: bool)
    | ReleaseCall(id: int)
    | SetAvailable(available: bool)

  /** What `admit` answers, and what `reserve` answers before it stores anything. */
  function Judge(policy: Policy, l: Ledger, raw: RawRequest): Answer {
    var normalized := Normalize(raw);
    if normalized.None? then Conflict
    else
      var r := normalized.value;
      var i := IndexOf(l.reservations, r.reservationId);
      if i < |l.reservations| then if l.reservations[i] == r then Admitted(r) else Conflict
      else if !l.available then Unavailable
      else
        var denial := DenialFrom(policy, l.reservations, r, None, 0);
        if denial.Some? then Denied(denial.value) else Admitted(r)
  }

  function Transitioned(policy: Policy, l: Ledger, id: int, running: bool): (Ledger, Answer) {
    var i := IndexOf(l.reservations, id);
    if i == |l.reservations| then (l, Found(false))
    else if l.reservations[i].running == running then (l, Found(true))
    else if !l.available then (l, Unavailable)
    else
      var next := l.reservations[i].(running := running);
      var denial := DenialFrom(policy, l.reservations, next, Some(id), 0);
      if denial.Some? then (l, Denied(denial.value))
      else (l.(reservations := l.reservations[i := next]), Found(true))
  }

  function Respond(policy: Policy, l: Ledger, call: Call): (Ledger, Answer) {
    match call
    case AdmitCall(raw) => (l, Judge(policy, l, raw))
    case ReserveCall(raw) =>
      var answer := Judge(policy, l, raw);
      if answer.Admitted? && IndexOf(l.reservations, answer.request.reservationId) == |l.reservations|
      then (l.(reservations := l.reservations + [answer.request]), answer)
      else (l, answer)
    case TransitionCall(id, running) => Transitioned(policy, l, id, running)
    case ReleaseCall(id) =>
      var i := IndexOf(l.reservations, id);
      if i < |l.reservations| then (l.(reservations := Removed(l.reservations, i)), Found(true)) else (l, Found(false))
    case SetAvailable(available) => (l.(available := available), Found(true))
  }

  function Run(policy: Policy, l: Ledger, calls: seq<Call>): Ledger
    decreases |calls|
  {
    if calls == [] then l else Run(policy, Respond(policy, l, calls[0]).0, calls[1..])
  }
}

/** Safety of the ledger over every run of calls. */
module QuotaSafety {
  import opened Common
  import opened QuotaLedger

  ghost predicate Inv(policy: Policy, l: Ledger) {
    UniqueIds(l.reservations) && Within(policy, l.reservations)
  }

  lemma FittingAppendStaysWithin(policy: Policy, rs: seq<Request>, r: Request)
    requires UniqueIds(rs) && Within(policy, rs) && !Holds(rs, r.reservationId) && Fits(policy, rs, r, None)
    ensures UniqueIds(rs + [r]) && Within(policy, rs + [r])
  {
    forall key, d | Limited(policy, key, d)
      ensures Usage(policy, rs + [r], key, d, None) <= Limit(policy, key, d)
    {
      UsageOfAppend(policy, rs, r, key, d, None);
      assert InScope(policy, r, key) ==> !Exceeds(policy, rs, r, None, key, d);
    }
  }

  lemma FittingUpdateStaysWithin(policy: Policy, rs: seq<Request>, i: nat, r: Request)
    requires i < |rs| && rs[i].reservationId == r.reservationId
    requires UniqueIds(rs) && Within(policy, rs) && Fits(policy, rs, r, Some(r.reservationId))
    ensures UniqueIds(rs[i := r]) && Within(policy, rs[i := r])
  {
    forall key, d | Limited(policy, key, d)
      ensures Usage(policy, rs[i := r], key, d, None) <= Limit(policy, key, d)
    {
      UsageOfUpdate(policy, rs, i, r, key, d, None);
      UsageExcept(policy, rs, r.reservationId, key, d);
      assert InScope(policy, r, key) ==> !Exceeds(policy, rs, r, Some(r.reservationId), key, d);
    }
  }

  lemma RemovalStaysWithin(policy: Policy, rs: seq<Request>, i: nat)
    requires i < |rs| && UniqueIds(rs) && Within(policy, rs)
    ensures UniqueIds(Removed(rs, i)) && Within(policy, Removed(rs, i))
  {
    forall key, d | Limited(policy, key, d)
      ensures Usage(policy, Removed(rs, i), key, d, None) <= Limit(policy, key, d)
    {
      UsageOfRemoval(policy, rs, i, key, d, None);
    }
  }

  lemma RespondKeepsInv(policy: Policy, l: Ledger, call: Call)
    requires Inv(policy, l)
    ensures Inv(policy, Respond(policy, l, call).0)
  {
    var rs := l.reservations;
    match call
    case AdmitCall(_) =>
    case SetAvailable(_) =>
    case ReserveCall(raw) =>
      var answer := Judge(policy, l, raw);
      if answer.Admitted? && IndexOf(rs, answer.request.reservationId) == |rs| {
        DeniedIffItDoesNotFit(policy, rs, answer.request, None);
        FittingAppendStaysWithin(policy, rs, answer.request);
      }
    case TransitionCall(id, running) =>
      var i := IndexOf(rs, id);
      if i < |rs| {
        var next := rs[i].(running := running);
        DeniedIffItDoesNotFit(policy, rs, next, Some(id));
        if Fits(policy, rs, next, Some(id)) { FittingUpdateStaysWithin(policy, rs, i, next); }
      }
    case ReleaseCall(id) =>
      if IndexOf(rs, id) < |rs| { RemovalStaysWithin(policy, rs, IndexOf(rs, id)); }
  }

  /** A new ledger starts within every limit. */
  lemma EmptyIsWithin(policy: Policy, available: bool)
    ensures Inv(policy, Ledger(available, []))
  {
  }

  /**
   * Through every run of calls, with the ledger going away and coming back at will, usage stays within the limit in
   * every scope and dimension, and no reservation is counted twice.
   */
  lemma {:induction false} UsageNeverExceedsLimits(policy: Policy, l: Ledger, calls: seq<Call>)
    requires Inv(policy, l)
    ensures Inv(policy, Run(policy, l, calls))
    decreases |calls|
  {
    if calls != [] {
      RespondKeepsInv(policy, l, calls[0]);
      UsageNeverExceedsLimits(policy, Respond(policy, l, calls[0]).0, calls[1..]);
    }
  }

  // ----- stopping and rolling back -----

  /** Asking for no more than is already held always fits. */
  lemma NoMoreFits(policy: Policy, rs: seq<Request>, i: nat, next: Request)
    requires UniqueIds(rs) && Within(policy, rs)
    requires i < |rs| && next == rs[i].(running := next.running) && (next.running ==> rs[i].running)
    ensures Fits(policy, rs, next, Some(next.reservationId))
  {
    forall key, d | InScope(policy, next, key)
      ensures !Exceeds(policy, rs, next, Some(next.reservationId), key, d)
    {
      UsageExcept(policy, rs, next.reservationId, key, d);
      assert InScope(policy, rs[i], key);
      assert Limited(policy, key, d) ==> Usage(policy, rs, key, d, None) <= Limit(policy, key, d);
    }
  }

  /**
   * In every reachable state, stopping a held reservation while the ledger is available is granted, whatever the
   * limits.
   */
  lemma StoppingIsNeverDenied(policy: Policy, calls: seq<Call>, available: bool, id: int)
    ensures var l := Run(policy, Ledger(available, []), calls);
            Holds(l.reservations, id) && l.available ==> Transitioned(policy, l, id, false).1 == Found(true)
  {
    var l := Run(policy, Ledger(available, []), calls);
    EmptyIsWithin(policy, available);
    UsageNeverExceedsLimits(policy, Ledger(available, []), calls);
    if Holds(l.reservations, id) {
      var i := IndexOf(l.reservations, id);
      var next := l.reservations[i].(running := false);
      NoMoreFits(policy, l.reservations, i, next);
      DeniedIffItDoesNotFit(policy, l.reservations, next, Some(id));
    }
  }

  /** Calls that take nothing more and leave reservation `id` alone: all that runs beside a failing stop. */
  predicate TakesNothing(call: Call, id: int) {
    match call
    case AdmitCall(_) => true
    case ReserveCall(_) => false
    case TransitionCall(other, running) => other != id && !running
    case ReleaseCall(other) => other != id
    case SetAvailable(_) => true
  }

  /** Room for reservation `id` as `held`, beside all the others. */
  ghost predicate RoomFor(policy: Policy, l: Ledger, held: Request) {
    && UniqueIds(l.reservations)
    && Fits(policy, l.reservations, held, Some(held.reservationId))
    && IndexOf(l.reservations, held.reservationId) < |l.reservations|
    && l.reservations[IndexOf(l.reservations, held.reservationId)] == held.(running := false)
  }

  lemma IndexIsUnique(rs: seq<Request>, i: nat)
    requires UniqueIds(rs) && i < |rs|
    ensures IndexOf(rs, rs[i].reservationId) == i
  {
    assert Holds(rs, rs[i].reservationId);
  }

  lemma FewerStillFits(policy: Policy, before: seq<Request>, after: seq<Request>, r: Request, except: Option<int>)
    requires Fits(policy, before, r, except)
    requires forall key, d :: Usage(policy, after, key, d, except) <= Usage(policy, before, key, d, except)
    ensures Fits(policy, after, r, except)
  {
    forall key, d | InScope(policy, r, key)
      ensures !Exceeds(policy, after, r, except, key, d)
    {
      assert !Exceeds(policy, before, r, except, key, d);
    }
  }

  lemma RemovalKeepsOthers(rs: seq<Request>, i: nat, k: nat)
    requires UniqueIds(rs) && i < |rs| && k < |rs| && i != k
    ensures UniqueIds(Removed(rs, i))
    ensures var at := if k < i then k else k - 1;
            at < |Removed(rs, i)| && Removed(rs, i)[at] == rs[k] && IndexOf(Removed(rs, i), rs[k].reservationId) == at
  {
    var after := Removed(rs, i);
    forall a | 0 <= a < |after| ensures after[a] == rs[if a < i then a else a + 1] {}
    IndexIsUnique(after, if k < i then k else k - 1);
  }

  lemma ReleaseKeepsRoom(policy: Policy, l: Ledger, i: nat, held: Request)
    requires RoomFor(policy, l, held) && i < |l.reservations| && l.reservations[i].reservationId != held.reservationId
    ensures RoomFor(policy, l.(reservations := Removed(l.reservations, i)), held)
  {
    var rs := l.reservations;
    var k := IndexOf(rs, held.reservationId);
    var id := held.reservationId;
    forall key, d ensures Usage(policy, Removed(rs, i), key, d, Some(id)) <= Usage(policy, rs, key, d, Some(id)) {
      UsageOfRemoval(policy, rs, i, key, d, Some(held.reservationId));
    }
    FewerStillFits(policy, rs, Removed(rs, i), held, Some(held.reservationId));
    RemovalKeepsOthers(rs, i, k);
  }

  lemma StopKeepsRoom(policy: Policy, l: Ledger, i: nat, held: Request)
    requires RoomFor(policy, l, held) && i < |l.reservations| && l.reservations[i].reservationId != held.reservationId
    ensures RoomFor(policy, l.(reservations := l.reservations[i := l.reservations[i].(running := false)]), held)
  {
    var rs := l.reservations;
    var next := rs[i].(running := false);
    var k := IndexOf(rs, held.reservationId);
    var id := held.reservationId;
    forall key, d ensures Usage(policy, rs[i := next], key, d, Some(id)) <= Usage(policy, rs, key, d, Some(id)) {
      UsageOfUpdate(policy, rs, i, next, key, d, Some(held.reservationId));
    }
    FewerStillFits(policy, rs, rs[i := next], held, Some(held.reservationId));
    IndexIsUnique(rs[i := next], k);
  }

  lemma {:induction false} RoomRemains(policy: Policy, l: Ledger, calls: seq<Call>, held: Request)
    requires RoomFor(policy, l, held)
    requires forall c :: c in calls ==> TakesNothing(c, held.reservationId)
    ensures RoomFor(policy, Run(policy, l, calls), held)
    decreases |calls|
  {
    if calls != [] {
      var call := calls[0];
      var next := Respond(policy, l, call).0;
      assert TakesNothing(call, held.reservationId);
      if next.reservations != l.reservations {
        var i := IndexOf(l.reservations, call.id);
        if call.ReleaseCall? { ReleaseKeepsRoom(policy, l, i, held); } else { StopKeepsRoom(policy, l, i, held); }
      }
      RoomRemains(policy, next, calls[1..], held);
    }
  }

  /**
   * A granted stop whose runtime call then fails can always be rolled back: after any releases, stops and admissions
   * of others, asking for `running` again is granted if the ledger is available.
   */
  lemma RollbackIsNeverDenied(policy: Policy, available: bool, before: seq<Call>, id: int, between: seq<Call>)
    requires forall c :: c in between ==> TakesNothing(c, id)
    requires var l := Run(policy, Ledger(available, []), before);
             Holds(l.reservations, id) && l.reservations[IndexOf(l.reservations, id)].running && l.available
    ensures var stopped := Transitioned(policy, Run(policy, Ledger(available, []), before), id, false).0;
            var later := Run(policy, stopped, between);
            later.available ==> Transitioned(policy, later, id, true).1 == Found(true)
  {
    var l := Run(policy, Ledger(available, []), before);
    var i := IndexOf(l.reservations, id);
    var held := l.reservations[i];
    EmptyIsWithin(policy, available);
    UsageNeverExceedsLimits(policy, Ledger(available, []), before);
    StoppingIsNeverDenied(policy, before, available, id);
    NoMoreFits(policy, l.reservations, i, held);
    var stopped := Transitioned(policy, l, id, false).0;
    RoomAfterStop(policy, l, i, stopped);
    RoomRemains(policy, stopped, between, held);
    DeniedIffItDoesNotFit(policy, Run(policy, stopped, between).reservations, held, Some(id));
  }

  lemma RoomAfterStop(policy: Policy, l: Ledger, i: nat, stopped: Ledger)
    requires UniqueIds(l.reservations) && i < |l.reservations| && l.reservations[i].running
    requires Fits(policy, l.reservations, l.reservations[i], Some(l.reservations[i].reservationId))
    requires stopped.reservations == l.reservations[i := l.reservations[i].(running := false)]
    ensures RoomFor(policy, stopped, l.reservations[i])
  {
    var held := l.reservations[i];
    forall key, d
      ensures Usage(policy, stopped.reservations, key, d, Some(held.reservationId)) <= Usage(policy, l.reservations,
          key, d, Some(held.reservationId))
    {
      UsageOfUpdate(policy, l.reservations, i, held.(running := false), key, d, Some(held.reservationId));
    }
    FewerStillFits(policy, l.reservations, stopped.reservations, held, Some(held.reservationId));
    IndexIsUnique(stopped.reservations, i);
  }

  /**
   * A stop of a reservation that is not running takes nothing, yet is granted; its rollback then asks for a place like
   * any newcomer and is granted exactly if running fits beside the others.
   */
  lemma RollbackWithoutStop(policy: Policy, l: Ledger, i: nat)
    requires UniqueIds(l.reservations) && l.available && i < |l.reservations| && !l.reservations[i].running
    ensures var r := l.reservations[i];
            var granted := Transitioned(policy, l, r.reservationId, true).1 == Found(true);
            && Transitioned(policy, l, r.reservationId, false) == (l, Found(true))
            && (granted <==> Fits(policy, l.reservations, r.(running := true), Some(r.reservationId)))
  {
    var r := l.reservations[i];
    IndexIsUnique(l.reservations, i);
    DeniedIffItDoesNotFit(policy, l.reservations, r.(running := true), Some(r.reservationId));
  }

  const ONE_RUNNING := Policy(Some(map[RunningInstances := 1]), map[], map[], map[])
  const FIRST := Request(1, 1, None, 1, true, 1, 1, 1, None, None, None)
  const SECOND := FIRST.(reservationId := 2, userId := 2)

  function Raw(r: Request): (raw: RawRequest)
    requires 0 < r.cpuMillis <= MAX_SAFE_INTEGER && 0 < r.memoryBytes <= MAX_SAFE_INTEGER &&
        0 < r.pidsLimit <= MAX_SAFE_INTEGER
    requires r.tenantId.None? && r.volumeBytes.None? && r.buildSlots.None? && r.rolloutSlots.None?
    ensures Normalize(raw) == Some(r)
  {
    RawRequest(Some(r.reservationId), Some(r.userId), None, Some(r.providerId), Some(r.running),
               r.cpuMillis, r.memoryBytes, r.pidsLimit, None, None, None)
  }

  lemma ReserveAppends(policy: Policy, rs: seq<Request>, raw: RawRequest, r: Request)
    requires Normalize(raw) == Some(r) && !Holds(rs, r.reservationId) && DenialFrom(policy, rs, r, None, 0).None?
    ensures Respond(policy, Ledger(true, rs), ReserveCall(raw)).0 == Ledger(true, rs + [r])
  {
  }

  lemma MoveStores(policy: Policy, rs: seq<Request>, i: nat, running: bool)
    requires UniqueIds(rs) && i < |rs| && rs[i].running != running
    requires DenialFrom(policy, rs, rs[i].(running := running), Some(rs[i].reservationId), 0).None?
    ensures Respond(policy, Ledger(true, rs), TransitionCall(rs[i].reservationId, running)).0
         == Ledger(true, rs[i := rs[i].(running := running)])
  {
    IndexIsUnique(rs, i);
  }

  /** With one running place: the first reservation was moved to stopped and the second took the place. */
  function PlaceTaken(): (l: Ledger)
    ensures l == Ledger(true, [FIRST.(running := false), SECOND])
  {
    var l1 := Respond(ONE_RUNNING, Ledger(true, []), ReserveCall(Raw(FIRST))).0;
    assert l1 == Ledger(true, [FIRST]) by { FirstTakesPlace(); }
    var l2 := Respond(ONE_RUNNING, l1, TransitionCall(1, false)).0;
    assert l2 == Ledger(true, [FIRST.(running := false)]) by { FirstGivesPlace(); }
    SecondTakesPlace();
    Respond(ONE_RUNNING, l2, ReserveCall(Raw(SECOND))).0
  }

  lemma FirstTakesPlace()
    ensures Respond(ONE_RUNNING, Ledger(true, []), ReserveCall(Raw(FIRST))).0 == Ledger(true, [FIRST])
  {
    RoomIsSeen([], FIRST, None);
    ReserveAppends(ONE_RUNNING, [], Raw(FIRST), FIRST);
  }

  lemma FirstGivesPlace()
    ensures Respond(ONE_RUNNING, Ledger(true, [FIRST]), TransitionCall(1, false)).0
         == Ledger(true, [FIRST.(running := false)])
  {
    RoomIsSeen([FIRST], FIRST.(running := false), Some(1));
    MoveStores(ONE_RUNNING, [FIRST], 0, false);
  }

  lemma SecondTakesPlace()
    ensures Respond(ONE_RUNNING, Ledger(true, [FIRST.(running := false)]), ReserveCall(Raw(SECOND))).0
         == Ledger(true, [FIRST.(running := false), SECOND])
  {
    var rs := [FIRST.(running := false)];
    RoomIsSeen(rs, SECOND, None);
    ReserveAppends(ONE_RUNNING, rs, Raw(SECOND), SECOND);
    assert rs + [SECOND] == [FIRST.(running := false), SECOND];
  }

  lemma OnlyRunningIsLimited(key: ScopeKey, d: Dimension)
    ensures Limited(ONE_RUNNING, key, d) <==> key == Global && d == RunningInstances
    ensures Limited(ONE_RUNNING, key, d) ==> Limit(ONE_RUNNING, key, d) == 1
  {
  }

  lemma UsageOfOne(r: Request, except: Option<int>)
    ensures Usage(ONE_RUNNING, [r], Global, RunningInstances, except) ==
        Part(ONE_RUNNING, r, Global, RunningInstances, except)
  {
    assert [r][..0] == [];
  }

  /** A request fits the single running place if the others listed do not run. */
  lemma RoomIsSeen(rs: seq<Request>, r: Request, except: Option<int>)
    requires rs == [] || (rs == [rs[0]] && (!rs[0].running || except == Some(rs[0].reservationId)))
    ensures DenialFrom(ONE_RUNNING, rs, r, except, 0).None?
  {
    if rs != [] { UsageOfOne(rs[0], except); }
    assert Usage(ONE_RUNNING, rs, Global, RunningInstances, except) == 0;
    forall key, d ensures !Exceeds(ONE_RUNNING, rs, r, except, key, d) {
      OnlyRunningIsLimited(key, d);
    }
    DeniedIffItDoesNotFit(ONE_RUNNING, rs, r, except);
  }

  /** Nothing more runs beside the second reservation. */
  lemma NoRoomLeft()
    ensures Exceeds(ONE_RUNNING, [FIRST.(running := false), SECOND], FIRST, Some(1), Global, RunningInstances)
  {
    var stopped := FIRST.(running := false);
    UsageOfOne(stopped, Some(1));
    assert [stopped, SECOND] == [stopped] + [SECOND];
    UsageOfAppend(ONE_RUNNING, [stopped], SECOND, Global, RunningInstances, Some(1));
    OnlyRunningIsLimited(Global, RunningInstances);
  }

  /**
   * So the rollback of a failed stop can be denied when the reservation had been moved to stopped before, as after a
   * start that failed although its container came up.
   */
  lemma RollbackCanBeDenied()
    ensures var l := PlaceTaken();
            && Transitioned(ONE_RUNNING, l, 1, false) == (l, Found(true))
            && Transitioned(ONE_RUNNING, l, 1, true).1 != Found(true)
  {
    NoRoomLeft();
    RollbackWithoutStop(ONE_RUNNING, PlaceTaken(), 0);
  }

  // ----- idempotence -----

  predicate LeavesAlone(call: Call, id: int) {
    match call
    case TransitionCall(other, _) => other != id
    case ReleaseCall(other) => other != id
    case _ => true
  }

  predicate Stored(l: Ledger, r: Request) {
    IndexOf(l.reservations, r.reservationId) < |l.reservations| &&
        l.reservations[IndexOf(l.reservations, r.reservationId)] == r
  }

  /** A row that is still somewhere in a list of unique ids is still stored. */
  lemma StoredAt(l: Ledger, r: Request, at: nat)
    requires UniqueIds(l.reservations) && at < |l.reservations| && l.reservations[at] == r
    ensures Stored(l, r)
  {
    IndexIsUnique(l.reservations, at);
  }

  lemma RespondKeepsStored(policy: Policy, l: Ledger, call: Call, r: Request)
    requires Inv(policy, l) && Stored(l, r) && LeavesAlone(call, r.reservationId)
    ensures Stored(Respond(policy, l, call).0, r)
  {
    var rs := l.reservations;
    var k := IndexOf(rs, r.reservationId);
    var next := Respond(policy, l, call).0;
    RespondKeepsInv(policy, l, call);
    if next.reservations != rs {
      StoredAt(next, r, if call.ReleaseCall? && IndexOf(rs, call.id) < k then k - 1 else k);
    }
  }

  lemma {:induction false} RunKeepsStored(policy: Policy, l: Ledger, calls: seq<Call>, r: Request)
    requires Inv(policy, l) && Stored(l, r)
    requires forall c :: c in calls ==> LeavesAlone(c, r.reservationId)
    ensures Stored(Run(policy, l, calls), r)
    decreases |calls|
  {
    if calls != [] {
      RespondKeepsStored(policy, l, calls[0], r);
      RespondKeepsInv(policy, l, calls[0]);
      RunKeepsStored(policy, Respond(policy, l, calls[0]).0, calls[1..], r);
    }
  }

  /**
   * Repeating a granted reservation is granted again and changes nothing, however full or unavailable the ledger has
   * become, until its id is released or moved; any other request under that id is a conflict.
   */
  lemma ReserveIsIdempotent(policy: Policy, l: Ledger, raw: RawRequest, between: seq<Call>, again: RawRequest)
    requires Inv(policy, l) && Respond(policy, l, ReserveCall(raw)).1.Admitted?
    requires Normalize(again).Some? && again.reservationId == raw.reservationId
    requires forall c :: c in between ==> LeavesAlone(c, raw.reservationId.value)
    ensures var later := Run(policy, Respond(policy, l, ReserveCall(raw)).0, between);
            && Respond(policy, later, ReserveCall(again)).0 == later
            && Respond(policy, later, ReserveCall(again)).1
                 == (if Normalize(again) == Normalize(raw) then Admitted(Normalize(raw).value) else Conflict)
  {
    var first := Respond(policy, l, ReserveCall(raw)).0;
    var r := Normalize(raw).value;
    RespondKeepsInv(policy, l, ReserveCall(raw));
    if IndexOf(l.reservations, r.reservationId) == |l.reservations| {
      IndexIsUnique(first.reservations, |l.reservations|);
    }
    RunKeepsStored(policy, first, between, r);
  }
}
