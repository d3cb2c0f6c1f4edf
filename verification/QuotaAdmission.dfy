/** The serial in-memory quota ledger, updated in place, against the sums it stands for. */
module QuotaAdmission {
  import opened Common
  import opened QuotaLedger
  import opened QuotaSafety

  type Usages = map<Dimension, nat>

  /** One number per dimension. */
  predicate Full(usage: Usages) {
    forall d :: d in DIMENSIONS ==> d in usage
  }

  method EmptyUsage() returns (usage: Usages)
    ensures Full(usage) && forall d :: d in DIMENSIONS ==> usage[d] == 0
  {
    usage := map[];
    for i := 0 to |DIMENSIONS|
      invariant forall k :: 0 <= k < i ==> DIMENSIONS[k] in usage
      invariant forall d :: d in usage ==> usage[d] == 0
    {
      usage := usage[DIMENSIONS[i] := 0];
    }
  }

  lemma DimensionsAreDistinct()
    ensures Distinct(DIMENSIONS)
  {
  }

  /** Adds one reservation to every dimension. */
  method AddContribution(usage: Usages, r: Request) returns (sum: Usages)
    requires Full(usage)
    ensures Full(sum) && forall d :: d in DIMENSIONS ==> sum[d] == usage[d] + Contribution(r, d)
  {
    sum := usage;
    DimensionsAreDistinct();
    for i := 0 to |DIMENSIONS|
      invariant Full(sum)
      invariant forall k :: 0 <= k < i ==> sum[DIMENSIONS[k]] == usage[DIMENSIONS[k]] + Contribution(r, DIMENSIONS[k])
      invariant forall k :: i <= k < |DIMENSIONS| ==> sum[DIMENSIONS[k]] == usage[DIMENSIONS[k]]
    {
      sum := sum[DIMENSIONS[i] := sum[DIMENSIONS[i]] + Contribution(r, DIMENSIONS[i])];
    }
  }

  /** Whether one of the walked scopes has the key. */
  method WalksThrough(scopes: seq<Scope>, key: ScopeKey) returns (found: bool)
    ensures found <==> exists i :: 0 <= i < |scopes| && scopes[i].key == key
  {
    found := false;
    for i := 0 to |scopes|
      invariant found <==> exists k :: 0 <= k < i && scopes[k].key == key
    {
      if scopes[i].key == key { found := true; }
    }
  }

  predicate AllFull(result: map<ScopeKey, Usages>) {
    forall key :: key in result ==> Full(result[key])
  }

  /** What a snapshot shows; a scope that is missing shows nothing. */
  function Shown(result: map<ScopeKey, Usages>, key: ScopeKey, d: Dimension): nat
    requires AllFull(result) && d in DIMENSIONS
  {
    if key in result then result[key][d] else 0
  }

  predicate Walked(scopes: seq<Scope>, j: nat, key: ScopeKey)
    requires j <= |scopes|
  {
    exists k :: 0 <= k < j && scopes[k].key == key
  }

  /**
   * A snapshot holds exactly the scopes some reservation belongs to, and shows the sums the limits are checked
   * against.
   */
  ghost predicate Summed(policy: Policy, result: map<ScopeKey, Usages>, rs: seq<Request>) {
    && AllFull(result)
    && (forall key :: key in result <==> Occupied(policy, rs, key))
    && (forall key, d :: d in DIMENSIONS ==> Shown(result, key, d) == Usage(policy, rs, key, d, None))
  }

  predicate Occupied(policy: Policy, rs: seq<Request>, key: ScopeKey) {
    exists i :: 0 <= i < |rs| && InScope(policy, rs[i], key)
  }

  /** `after` is `before` with a reservation added to the first `j` of the scopes. */
  ghost predicate AddedUpTo(before: map<ScopeKey, Usages>, after: map<ScopeKey, Usages>, scopes: seq<Scope>, j: nat,
                            r: Request)
    requires AllFull(before) && j <= |scopes|
  {
    && AllFull(after)
    && (forall key :: key in after <==> key in before || Walked(scopes, j, key))
    && (forall key, d {:trigger Shown(after, key, d)} :: d in DIMENSIONS ==>
          Shown(after, key, d) == Shown(before, key, d) + if Walked(scopes, j, key) then Contribution(r, d) else 0)
  }

  lemma AddedToNext(before: map<ScopeKey, Usages>, now: map<ScopeKey, Usages>, usage: Usages, scopes: seq<Scope>,
                    j: nat, r: Request)
    requires AllFull(before) && j < |scopes| && AddedUpTo(before, now, scopes, j, r) && Full(usage)
    requires forall a, b :: 0 <= a < b < |scopes| ==> scopes[a].key != scopes[b].key
    requires forall d :: d in DIMENSIONS ==> usage[d] == Shown(now, scopes[j].key, d) + Contribution(r, d)
    ensures AddedUpTo(before, now[scopes[j].key := usage], scopes, j + 1, r)
  {
    var here := scopes[j].key;
    assert Walked(scopes, j + 1, here) && !Walked(scopes, j, here);
    var next := now[here := usage];
    forall key
      ensures key != here ==> (Walked(scopes, j + 1, key) <==> Walked(scopes, j, key))
      ensures key in next <==> key in before || Walked(scopes, j + 1, key)
    {
    }
    forall key, d | d in DIMENSIONS
      ensures Shown(next, key, d) == Shown(before, key, d) + if Walked(scopes, j + 1, key) then Contribution(r, d)
          else 0
    {
      assert Shown(now, key, d) == Shown(before, key, d) + if Walked(scopes, j, key) then Contribution(r, d) else 0;
    }
  }

  /** Once a reservation is added to each scope it walks through, the snapshot covers it too. */
  lemma AddedReservation(policy: Policy, before: map<ScopeKey, Usages>, after: map<ScopeKey, Usages>, rs: seq<Request>,
                         r: Request)
    requires Summed(policy, before, rs)
    requires AddedUpTo(before, after, ScopesFor(policy, r), |ScopesFor(policy, r)|, r)
    ensures Summed(policy, after, rs + [r])
  {
    forall key ensures key in after <==> Occupied(policy, rs + [r], key) {
      ScopesAreThoseInScope(policy, r, key);
      assert Occupied(policy, rs + [r], key) <==> Occupied(policy, rs, key) || InScope(policy, r, key) by {
        if Occupied(policy, rs, key) {
          var i :| 0 <= i < |rs| && InScope(policy, rs[i], key);
          assert (rs + [r])[i] == rs[i];
        }
        if InScope(policy, r, key) { assert (rs + [r])[|rs|] == r; }
      }
    }
    forall key, d | d in DIMENSIONS
      ensures Shown(after, key, d) == Usage(policy, rs + [r], key, d, None)
    {
      ScopesAreThoseInScope(policy, r, key);
      UsageOfAppend(policy, rs, r, key, d, None);
    }
  }

  class InMemoryQuotaAdmission {
    const policy: Policy
    var reservations: seq<Request>
    var available: bool

    ghost predicate Valid()
      reads this
    {
      Inv(policy, Contents())
    }

    ghost function Contents(): Ledger
      reads this
    {
      Ledger(available, reservations)
    }

    constructor (policy: Policy, available: bool)
      ensures Valid() && this.policy == policy && Contents() == Ledger(available, [])
    {
      this.policy := policy;
      this.reservations := [];
      this.available := available;
    }

    method SetAvailable(available: bool)
      requires Valid()
      modifies this`available
      ensures Valid() && Contents() == Respond(policy, old(Contents()), QuotaLedger.SetAvailable(available)).0
    {
      this.available := available;
    }

    method Admit(raw: RawRequest) returns (answer: Answer)
      requires Valid()
      ensures answer == Respond(policy, Contents(), AdmitCall(raw)).1
    {
      var normalized := Normalize(raw);
      if normalized.None? { return Conflict; }
      var request := normalized.value;
      var i := IndexOf(reservations, request.reservationId);
      if i < |reservations| {
        return if reservations[i] == request then Admitted(request) else Conflict;
      }
      if !available { return Unavailable; }
      var denial := FindDenial(request, None);
      return if denial.Some? then Denied(denial.value) else Admitted(request);
    }

    method Reserve(raw: RawRequest) returns (answer: Answer)
      requires Valid()
      modifies this`reservations
      ensures Valid() && (Contents(), answer) == Respond(policy, old(Contents()), ReserveCall(raw))
    {
      RespondKeepsInv(policy, Contents(), ReserveCall(raw));
      var normalized := Normalize(raw);
      if normalized.None? { return Conflict; }
      var request := normalized.value;
      var i := IndexOf(reservations, request.reservationId);
      if i < |reservations| {
        return if reservations[i] == request then Admitted(request) else Conflict;
      }
      if !available { return Unavailable; }
      var denial := FindDenial(request, None);
      if denial.Some? { return Denied(denial.value); }
      reservations := reservations + [request];
      answer := Admitted(request);
    }

    method Transition(id: int, running: bool) returns (answer: Answer)
      requires Valid()
      modifies this`reservations
      ensures Valid() && (Contents(), answer) == Respond(policy, old(Contents()), TransitionCall(id, running))
    {
      RespondKeepsInv(policy, Contents(), TransitionCall(id, running));
      var i := IndexOf(reservations, id);
      if i == |reservations| { return Found(false); }
      if reservations[i].running == running { return Found(true); }
      if !available { return Unavailable; }
      var next := reservations[i].(running := running);
      var denial := FindDenial(next, Some(id));
      if denial.Some? { return Denied(denial.value); }
      reservations := reservations[i := next];
      answer := Found(true);
    }

    method Release(id: int) returns (answer: Answer)
      requires Valid()
      modifies this`reservations
      ensures Valid() && (Contents(), answer) == Respond(policy, old(Contents()), ReleaseCall(id))
    {
      RespondKeepsInv(policy, Contents(), ReleaseCall(id));
      var i := IndexOf(reservations, id);
      if i == |reservations| { return Found(false); }
      reservations := Removed(reservations, i);
      answer := Found(true);
    }

    /** The first scope and dimension the request would exceed. */
    method FindDenial(request: Request, except: Option<int>) returns (denial: Option<Denial>)
      ensures denial == DenialFrom(policy, reservations, request, except, 0)
    {
      var scopes := ScopesFor(policy, request);
      for i := 0 to |scopes|
        invariant DenialFrom(policy, reservations, request, except, 0) ==
            DenialFrom(policy, reservations, request, except, i)
      {
        assert LimitsOf(policy, scopes[i].key) == Some(scopes[i].limits) by {
          ScopesAreThoseInScope(policy, request, scopes[i].key);
        }
        var usage := UsageFor(scopes[i].key, except);
        denial := FirstExceeded(request, except, scopes[i], usage);
        assert denial == DenialIn(policy, reservations, request, except, scopes[i].key, 0);
        if denial.Some? { return; }
      }
      return None;
    }

    /** The inner loop of `FindDenial`: one scope, dimension by dimension. */
    method FirstExceeded(request: Request, ghost except: Option<int>, scope: Scope, usage: Usages)
      returns (denial: Option<Denial>)
      requires LimitsOf(policy, scope.key) == Some(scope.limits)
      requires Full(usage) && forall d :: d in DIMENSIONS ==>
          usage[d] == Usage(policy, reservations, scope.key, d, except)
      ensures denial == DenialIn(policy, reservations, request, except, scope.key, 0)
    {
      for j := 0 to |DIMENSIONS|
        invariant DenialIn(policy, reservations, request, except, scope.key, 0)
               == DenialIn(policy, reservations, request, except, scope.key, j)
      {
        var d := DIMENSIONS[j];
        assert Limited(policy, scope.key, d) <==> d in scope.limits;
        assert usage[d] == Usage(policy, reservations, scope.key, d, except);
        if d in scope.limits && usage[d] + Contribution(request, d) > scope.limits[d] {
          return Some(Denial(d, scope.key));
        }
      }
      return None;
    }

    /** The sum of every live reservation in the scope, per dimension. */
    method UsageFor(key: ScopeKey, except: Option<int>) returns (usage: Usages)
      requires LimitsOf(policy, key).Some?
      ensures Full(usage)
      ensures forall d :: d in DIMENSIONS ==> usage[d] == Usage(policy, reservations, key, d, except)
    {
      usage := EmptyUsage();
      for i := 0 to |reservations|
        invariant Full(usage)
        invariant forall d :: d in DIMENSIONS ==> usage[d] == Usage(policy, reservations[..i], key, d, except)
      {
        var r := reservations[i];
        forall d ensures Usage(policy, reservations[..i + 1], key, d, except)
                      == Usage(policy, reservations[..i], key, d, except) + Part(policy, r, key, d, except) {
          assert reservations[..i + 1] == reservations[..i] + [r];
          UsageOfAppend(policy, reservations[..i], r, key, d, except);
        }
        ScopesAreThoseInScope(policy, r, key);
        var inScope := WalksThrough(ScopesFor(policy, r), key);
        if Some(r.reservationId) != except && inScope {
          usage := AddContribution(usage, r);
        }
      }
      assert reservations[..|reservations|] == reservations;
    }

    /** Every scope that holds a reservation, with its sums. */
    method Snapshot() returns (result: map<ScopeKey, Usages>)
      ensures Summed(policy, result, reservations)
    {
      result := map[];
      assert reservations[..0] == [];
      for i := 0 to |reservations|
        invariant Summed(policy, result, reservations[..i])
      {
        assert reservations[..i + 1] == reservations[..i] + [reservations[i]];
        result := AddToScopes(result, reservations[..i], reservations[i]);
      }
      assert reservations[..|reservations|] == reservations;
    }

    /** The inner loop of `Snapshot`: one reservation is added to each scope it walks through. */
    method AddToScopes(before: map<ScopeKey, Usages>, ghost rs: seq<Request>, r: Request)
      returns (result: map<ScopeKey, Usages>)
      requires Summed(policy, before, rs)
      ensures Summed(policy, result, rs + [r])
    {
      result := before;
      var scopes := ScopesFor(policy, r);
      ScopesAreDistinct(policy, r);
      assert forall key :: !Walked(scopes, 0, key);
      for j := 0 to |scopes|
        invariant AddedUpTo(before, result, scopes, j, r)
      {
        var usage: Usages;
        if scopes[j].key in result { usage := result[scopes[j].key]; } else { usage := EmptyUsage(); }
        usage := AddContribution(usage, r);
        AddedToNext(before, result, usage, scopes, j, r);
        result := result[scopes[j].key := usage];
      }
      AddedReservation(policy, before, result, rs, r);
    }
  }
}
