/**
 * `cleanup_objects`: when the API server answers, drain replication
 * controllers, then pods, then secrets, then services, each with its own
 * rule and threshold. Deployments are never drained from here. A drain
 * that raises or never exits stops the sequence.
 */
module Cleanup {
  import opened Policy
  import opened Drain
  import opened Text

  /** The kinds `cleanup_objects` drains, in the order it drains them. */
  const Order: seq<Kind> := [ReplicationController, Pod, Secret, Service]

  /** A kind's position in `Order`; deployments come after everything. */
  function Rank(kind: Kind): nat
  {
    match kind
    case ReplicationController => 0
    case Pod => 1
    case Secret => 2
    case Service => 3
    case Deployment => 4
  }

  /** How the drain of `kind` ends when it starts from the store `live`. */
  function KindOutcome(live: map<Kind, seq<Record>>, races: Kind -> Races, fuel: nat, kind: Kind): Outcome
  {
    DrainOutcome(RuleOf(kind), Stored(live, kind), races(kind).beforeGet, Threshold(kind), fuel)
  }

  /** What the drain of `kind` leaves in its store when it starts from the store `live`. */
  function KindStore(live: map<Kind, seq<Record>>, races: Kind -> Races, fuel: nat, kind: Kind): seq<Record>
  {
    DrainStore(RuleOf(kind), Stored(live, kind), races(kind).beforeGet, Threshold(kind), fuel)
  }

  /**
   * How many of the four drains `cleanup_objects` runs: a drain that raises
   * or never returns is the last one.
   */
  function RunCount(live: map<Kind, seq<Record>>, races: Kind -> Races, fuel: nat): (n: nat)
    ensures 1 <= n <= |Order|
  {
    if KindOutcome(live, races, fuel, ReplicationController) != Drained then 1
    else if KindOutcome(live, races, fuel, Pod) != Drained then 2
    else if KindOutcome(live, races, fuel, Secret) != Drained then 3
    else 4
  }

  /** The drain of `kind` is one that `cleanup_objects` runs. */
  predicate Runs(live: map<Kind, seq<Record>>, races: Kind -> Races, fuel: nat, kind: Kind)
  {
    kind != Deployment && Rank(kind) < RunCount(live, races, fuel)
  }

  /**
   * How `cleanup_objects` ends: the first of its four drains that does not
   * converge decides, so it is the outcome of the last drain that runs.
   */
  function CleanupOutcome(live: map<Kind, seq<Record>>, races: Kind -> Races, fuel: nat): (o: Outcome)
    ensures o == KindOutcome(live, races, fuel, Order[RunCount(live, races, fuel) - 1])
  {
    var rcs := KindOutcome(live, races, fuel, ReplicationController);
    var pods := KindOutcome(live, races, fuel, Pod);
    var secrets := KindOutcome(live, races, fuel, Secret);
    var services := KindOutcome(live, races, fuel, Service);
    if rcs != Drained then rcs
    else if pods != Drained then pods
    else if secrets != Drained then secrets
    else services
  }

  /**
   * The drains before the last one that runs all converged, and unless the
   * last one is the service drain it did not converge.
   */
  lemma LastDrainDecides(live: map<Kind, seq<Record>>, races: Kind -> Races, fuel: nat)
    ensures forall k :: Runs(live, races, fuel, k) && Rank(k) < RunCount(live, races, fuel) - 1 ==>
              KindOutcome(live, races, fuel, k) == Drained
    ensures RunCount(live, races, fuel) < |Order| ==>
              KindOutcome(live, races, fuel, Order[RunCount(live, races, fuel) - 1]) != Drained
  {
    assert Order == [ReplicationController, Pod, Secret, Service];
  }

  /** `cleanup_objects` converges iff each of its four drains does. */
  lemma CleanupDrainedIff(live: map<Kind, seq<Record>>, races: Kind -> Races, fuel: nat)
    ensures CleanupOutcome(live, races, fuel) == Drained <==>
              forall k :: k in Order ==> KindOutcome(live, races, fuel, k) == Drained
  {
    assert Order == [ReplicationController, Pod, Secret, Service];
    if CleanupOutcome(live, races, fuel) == Drained {
      forall k | k in Order
        ensures KindOutcome(live, races, fuel, k) == Drained
      {
        assert k != Deployment;
      }
    }
  }

  /** Pods, replication controllers and deployments are never protected. */
  lemma {:induction false} NoneProtected(kind: Kind, s: seq<Record>)
    requires kind != Secret && kind != Service
    ensures ProtectedCount(RuleOf(kind), s) == 0
  {
    if s != [] {
      NoneProtected(kind, s[..|s| - 1]);
    }
  }

  /** The pod, RC and deployment drains always converge, whatever other clients delete. */
  lemma UnprotectedKindsDrain(kind: Kind, listing: seq<Record>, gone: set<string>, fuel: nat)
    requires kind != Secret && kind != Service && fuel > 0
    ensures DrainOutcome(RuleOf(kind), listing, gone, Threshold(kind), fuel) == Drained
  {
    NoneProtected(kind, listing);
    KeptWithinProtected(RuleOf(kind), listing, gone);
    assert AllSound(RuleOf(kind), listing, gone);
  }

  /**
   * A threshold of one lets a lone record through whatever it is: a secret
   * or service listing of one record its rule would delete converges at
   * once, and the record stays.
   */
  lemma LoneDeletableSurvives(kind: Kind, r: Record, gone: set<string>, fuel: nat)
    requires kind == Secret || kind == Service
    requires Fate(kind, r) == Remove
    ensures RuleOf(kind)(r, r) == Remove
    ensures DrainOutcome(RuleOf(kind), [r], gone, Threshold(kind), fuel) == Drained
    ensures DrainStore(RuleOf(kind), [r], gone, Threshold(kind), fuel) == [r]
  {
    assert RuleOf(kind)(r, r) == Fate(kind, r);
  }

  /** A pass over secrets that all carry a type never aborts. */
  lemma TypedSecretsSound(listing: seq<Record>, gone: set<string>)
    requires forall r :: r in listing ==> r.secretType.Some?
    ensures AllSound(RuleOf(Secret), listing, gone)
  {
    forall r | r in listing ensures Sound(RuleOf(Secret), r, gone) {
      PolicyTable(Secret, r);
      assert RuleOf(Secret)(r, r) == Fate(Secret, r);
    }
  }

  /** A sequence holding two different records has at least two entries. */
  lemma TwoEntries(s: seq<Record>, a: Record, b: Record)
    requires a in s && b in s && a != b
    ensures |s| >= 2
  {
    var i :| 0 <= i < |s| && s[i] == a;
    var j :| 0 <= j < |s| && s[j] == b;
    assert i != j;
  }

  /**
   * Two service-account-token secrets that no other client removes keep
   * `cleanup_secrets` listing them forever: its threshold is one.
   */
  lemma TwoTokensNeverDrain(listing: seq<Record>, gone: set<string>, fuel: nat, a: Record, b: Record)
    requires a in listing && b in listing && a != b
    requires Fate(Secret, a) == Keep && Fate(Secret, b) == Keep && a.name !in gone && b.name !in gone
    requires forall r :: r in listing ==> r.secretType.Some?
    ensures DrainOutcome(RuleOf(Secret), listing, gone, Threshold(Secret), fuel) == Stuck
  {
    var rule := RuleOf(Secret);
    TypedSecretsSound(listing, gone);
    TwoEntries(listing, a, b);
    assert rule(a, a) == Fate(Secret, a) && rule(b, b) == Fate(Secret, b);
    var k := Kept(rule, listing, gone);
    assert a in k && b in k;
    TwoEntries(k, a, b);
  }

  /** The secret drain never deletes a listed secret whose type names a service-account token. */
  lemma TokenSecretNeverDeleted(listed: seq<Record>, cs: seq<Call>, from: nat, r: Record)
    requires UniqueNames(listed) && OnlyRemovableDeleted(RuleOf(Secret), Secret, listed, cs, from)
    requires r in listed && r.secretType.Some? && Contains(r.secretType.value, TokenMarker)
    ensures forall j :: from <= j < |cs| ==> !(cs[j].DeleteCall? && cs[j].name == r.name)
  {
    PolicyTable(Secret, r);
    assert RuleOf(Secret)(r, r) == Fate(Secret, r);
    ProtectedNeverDeleted(RuleOf(Secret), Secret, listed, cs, from, r);
  }

  /** The service drain never deletes a listed service labelled component=apiserver, provider=kubernetes. */
  lemma ApiServerNeverDeleted(listed: seq<Record>, cs: seq<Call>, from: nat, r: Record)
    requires UniqueNames(listed) && OnlyRemovableDeleted(RuleOf(Service), Service, listed, cs, from)
    requires r in listed && HasLabel(r, "component", "apiserver") && HasLabel(r, "provider", "kubernetes")
    ensures forall j :: from <= j < |cs| ==> !(cs[j].DeleteCall? && cs[j].name == r.name)
  {
    PolicyTable(Service, r);
    assert RuleOf(Service)(r, r) == Fate(Service, r);
    ProtectedNeverDeleted(RuleOf(Service), Service, listed, cs, from, r);
  }

  /** The kinds ranked below `rank` are down to their thresholds. */
  predicate DrainedBelow(live: map<Kind, seq<Record>>, rank: nat)
  {
    (rank > 0 ==> |Stored(live, ReplicationController)| <= Threshold(ReplicationController)) &&
    (rank > 1 ==> |Stored(live, Pod)| <= Threshold(Pod)) &&
    (rank > 2 ==> |Stored(live, Secret)| <= Threshold(Secret)) &&
    (rank > 3 ==> |Stored(live, Service)| <= Threshold(Service))
  }

  /** The calls from index `from` on go kind by kind, in `Order`, and never concern deployments. */
  ghost predicate InOrder(cs: seq<Call>, from: nat)
  {
    (forall j :: from <= j < |cs| ==> cs[j].kind in Order) &&
    (forall i, j :: from <= i < j < |cs| ==> Rank(cs[i].kind) <= Rank(cs[j].kind))
  }

  /** The calls from index `from` on concern kinds ranked at most `rank`. */
  ghost predicate RankedUpTo(cs: seq<Call>, from: nat, rank: nat)
  {
    forall j :: from <= j < |cs| ==> Rank(cs[j].kind) <= rank
  }

  /** Some call from index `from` on lists `kind`. */
  ghost predicate Listed(cs: seq<Call>, from: nat, kind: Kind)
  {
    exists j :: from <= j < |cs| && cs[j] == ListCall(kind)
  }

  lemma ListedGrows(cs: seq<Call>, ds: seq<Call>, from: nat, kind: Kind)
    requires cs <= ds && Listed(cs, from, kind)
    ensures Listed(ds, from, kind)
  {
    var j :| from <= j < |cs| && cs[j] == ListCall(kind);
    assert ds[j] == cs[j];
  }

  /**
   * The state once the drains of the kinds ranked below `rank` have run,
   * starting from the store `live0` and the calls up to `from`: those kinds
   * hold what their drains leave, the others are untouched, each drain that
   * ran has listed its kind, and no call concerns a later kind.
   */
  ghost predicate After(live0: map<Kind, seq<Record>>, races: Kind -> Races, fuel: nat,
                        live: map<Kind, seq<Record>>, cs: seq<Call>, from: nat, rank: nat)
  {
    StoresAfter(live0, races, fuel, live, rank) && ListedBelow(cs, from, rank) && CallsBelow(cs, from, rank)
  }

  /** The kinds ranked below `rank` hold what their drains leave; the others, deployments included, are untouched. */
  predicate StoresAfter(live0: map<Kind, seq<Record>>, races: Kind -> Races, fuel: nat, live: map<Kind, seq<Record>>, rank: nat)
  {
    Settled(live0, races, fuel, live, ReplicationController, rank) && Settled(live0, races, fuel, live, Pod, rank) &&
    Settled(live0, races, fuel, live, Secret, rank) && Settled(live0, races, fuel, live, Service, rank) &&
    Stored(live, Deployment) == Stored(live0, Deployment)
  }

  /** Each kind ranked below `rank` has been listed since `from`. */
  ghost predicate ListedBelow(cs: seq<Call>, from: nat, rank: nat)
  {
    (0 < rank ==> Listed(cs, from, ReplicationController)) && (1 < rank ==> Listed(cs, from, Pod)) &&
    (2 < rank ==> Listed(cs, from, Secret)) && (3 < rank ==> Listed(cs, from, Service))
  }

  /** The calls since `from` go in order and concern only kinds ranked below `rank`. */
  ghost predicate CallsBelow(cs: seq<Call>, from: nat, rank: nat)
  {
    from <= |cs| && InOrder(cs, from) && forall j :: from <= j < |cs| ==> Rank(cs[j].kind) < rank
  }

  /** The drain of the kind ranked `rank` settles its own store and leaves the others as they were. */
  lemma AdvanceStores(live0: map<Kind, seq<Record>>, races: Kind -> Races, fuel: nat,
                      before: map<Kind, seq<Record>>, after: map<Kind, seq<Record>>, kind: Kind, rank: nat)
    requires kind != Deployment && rank == Rank(kind)
    requires StoresAfter(live0, races, fuel, before, rank)
    requires Stored(after, kind) == KindStore(live0, races, fuel, kind)
    requires forall k :: k != kind ==> Stored(after, k) == Stored(before, k)
    ensures StoresAfter(live0, races, fuel, after, rank + 1)
  {
    forall k | k != Deployment
      ensures Stored(after, k) == if Rank(k) < rank + 1 then KindStore(live0, races, fuel, k) else Stored(live0, k)
    {
      assert Settled(live0, races, fuel, before, k, rank);
    }
  }

  /** The calls of the drain of the kind ranked `rank` list it, after the calls of the earlier drains. */
  lemma AdvanceCalls(cs: seq<Call>, ds: seq<Call>, from: nat, kind: Kind, rank: nat)
    requires kind in Order && rank == Rank(kind)
    requires ListedBelow(cs, from, rank) && from <= |cs|
    requires cs < ds && ds[|cs|] == ListCall(kind)
    requires InOrder(ds, from) && RankedUpTo(ds, from, rank)
    ensures ListedBelow(ds, from, rank + 1) && CallsBelow(ds, from, rank + 1)
  {
    assert Listed(ds, from, kind);
    forall k | k in Order && Rank(k) < rank ensures Listed(ds, from, k) {
      ListedGrows(cs, ds, from, k);
    }
    assert Order == [ReplicationController, Pod, Secret, Service];
  }

  /** The store of `kind` holds what its drain leaves if that drain is among the first `rank`, else its records in `live0`. */
  predicate Settled(live0: map<Kind, seq<Record>>, races: Kind -> Races, fuel: nat,
                    live: map<Kind, seq<Record>>, kind: Kind, rank: nat)
  {
    Stored(live, kind) == if Rank(kind) < rank then KindStore(live0, races, fuel, kind) else Stored(live0, kind)
  }

  /** Once exactly the drains that run have run, the store and the calls are as `cleanup_objects` leaves them. */
  lemma Finish(live0: map<Kind, seq<Record>>, races: Kind -> Races, fuel: nat,
               live: map<Kind, seq<Record>>, cs: seq<Call>, from: nat)
    requires After(live0, races, fuel, live, cs, from, RunCount(live0, races, fuel))
    ensures forall k ::
              Stored(live, k) == (if Runs(live0, races, fuel, k) then KindStore(live0, races, fuel, k) else Stored(live0, k))
    ensures forall k :: Runs(live0, races, fuel, k) ==> Listed(cs, from, k)
    ensures forall j :: from <= j < |cs| ==> Runs(live0, races, fuel, cs[j].kind)
  {
    var n := RunCount(live0, races, fuel);
    assert Order == [ReplicationController, Pod, Secret, Service];
    forall k ensures Stored(live, k) == (if Runs(live0, races, fuel, k) then KindStore(live0, races, fuel, k) else Stored(live0, k))
                  && (Runs(live0, races, fuel, k) ==> Listed(cs, from, k)) {
      if k != Deployment {
        assert Settled(live0, races, fuel, live, k, n);
      }
    }
    forall j | from <= j < |cs| ensures Runs(live0, races, fuel, cs[j].kind) {
      assert cs[j].kind in Order;
    }
  }

  /** Appending the calls of a drain of a later kind keeps the trace in order. */
  lemma AppendDrain(cs: seq<Call>, ds: seq<Call>, from: nat, kind: Kind, rule: Rule, listed: seq<Record>)
    requires kind in Order && cs <= ds && from <= |cs|
    requires InOrder(cs, from) && RankedUpTo(cs, from, Rank(kind))
    requires OnlyRemovableDeleted(rule, kind, listed, ds, |cs|)
    ensures InOrder(ds, from) && RankedUpTo(ds, from, Rank(kind))
  {
    forall i, j | from <= i < j < |ds| ensures Rank(ds[i].kind) <= Rank(ds[j].kind) {
      if j < |cs| {
        assert ds[i] == cs[i] && ds[j] == cs[j];
      } else if i < |cs| {
        assert ds[i] == cs[i];
      }
    }
    forall j | from <= j < |ds| ensures ds[j].kind in Order && Rank(ds[j].kind) <= Rank(kind) {
      if j < |cs| {
        assert ds[j] == cs[j];
      }
    }
  }

  /**
   * Every delete since `from` names a record that the rule of its kind marks
   * Remove in the original store `live0`.
   */
  ghost predicate DeletesRemovable(live0: map<Kind, seq<Record>>, cs: seq<Call>, from: nat)
  {
    forall j :: from <= j < |cs| && cs[j].DeleteCall? ==>
      ListedVerdict(RuleOf(cs[j].kind), Stored(live0, cs[j].kind), cs[j].name) == Remove
  }

  /** The deletes of one more drain, each of a Remove-verdict record of its original listing. */
  lemma AdvanceDeletes(live0: map<Kind, seq<Record>>, cs: seq<Call>, ds: seq<Call>, from: nat, kind: Kind)
    requires from <= |cs| && cs <= ds && DeletesRemovable(live0, cs, from)
    requires OnlyRemovableDeleted(RuleOf(kind), kind, Stored(live0, kind), ds, |cs|)
    ensures DeletesRemovable(live0, ds, from)
  {
    forall j | from <= j < |ds| && ds[j].DeleteCall?
      ensures ListedVerdict(RuleOf(ds[j].kind), Stored(live0, ds[j].kind), ds[j].name) == Remove
    {
      if j < |cs| {
        assert ds[j] == cs[j];
      } else {
        assert Removable(RuleOf(kind), kind, Stored(live0, kind), ds[j]);
      }
    }
  }

  /** `cleanup_objects` never deletes a secret whose type names a service-account token. */
  lemma CleanupKeepsTokenSecrets(live0: map<Kind, seq<Record>>, cs: seq<Call>, from: nat, r: Record)
    requires UniqueNames(Stored(live0, Secret)) && DeletesRemovable(live0, cs, from)
    requires r in Stored(live0, Secret) && r.secretType.Some? && Contains(r.secretType.value, TokenMarker)
    ensures forall j :: from <= j < |cs| ==> !(cs[j].DeleteCall? && cs[j].kind == Secret && cs[j].name == r.name)
  {
    FindUnique(Stored(live0, Secret), r);
    PolicyTable(Secret, r);
    assert RuleOf(Secret)(r, r) == Fate(Secret, r);
  }

  /** `cleanup_objects` never deletes a service labelled component=apiserver, provider=kubernetes. */
  lemma CleanupKeepsApiServer(live0: map<Kind, seq<Record>>, cs: seq<Call>, from: nat, r: Record)
    requires UniqueNames(Stored(live0, Service)) && DeletesRemovable(live0, cs, from)
    requires r in Stored(live0, Service) && HasLabel(r, "component", "apiserver") && HasLabel(r, "provider", "kubernetes")
    ensures forall j :: from <= j < |cs| ==> !(cs[j].DeleteCall? && cs[j].kind == Service && cs[j].name == r.name)
  {
    FindUnique(Stored(live0, Service), r);
    PolicyTable(Service, r);
    assert RuleOf(Service)(r, r) == Fate(Service, r);
  }

  /**
   * One of the four drains, run after the drains of the kinds before it,
   * on a store whose `kind` records are still those of `live0`.
   */
  method DrainInTurn(cluster: Cluster, kind: Kind, races: Kind -> Races, fuel: nat,
                     ghost live0: map<Kind, seq<Record>>, ghost start: nat, ghost rank: nat)
    returns (outcome: Outcome)
    requires kind in Order && rank == Rank(kind) && UniqueNames(Stored(live0, kind))
    requires After(live0, races, fuel, cluster.live, cluster.calls, start, rank)
    requires DeletesRemovable(live0, cluster.calls, start)
    modifies cluster
    ensures outcome == KindOutcome(live0, races, fuel, kind)
    ensures Stored(cluster.live, kind) == KindStore(live0, races, fuel, kind)
    ensures forall k :: k != kind ==> Stored(cluster.live, k) == Stored(old(cluster.live), k)
    ensures After(live0, races, fuel, cluster.live, cluster.calls, start, rank + 1)
    ensures old(cluster.calls) < cluster.calls && cluster.calls[|old(cluster.calls)|] == ListCall(kind)
    ensures DeletesRemovable(live0, cluster.calls, start)
  {
    ghost var cs := cluster.calls;
    outcome := cluster.Drain(kind, RuleOf(kind), races(kind), fuel);
    AppendDrain(cs, cluster.calls, start, kind, RuleOf(kind), Stored(live0, kind));
    AdvanceDeletes(live0, cs, cluster.calls, start, kind);
    AdvanceStores(live0, races, fuel, old(cluster.live), cluster.live, kind, rank);
    AdvanceCalls(cs, cluster.calls, start, kind, rank);
  }

  /**
   * The four drains in turn, each run only when the ones before it have
   * converged.
   */
  method DrainAll(cluster: Cluster, races: Kind -> Races, fuel: nat, ghost live0: map<Kind, seq<Record>>, ghost start: nat)
    returns (outcome: Outcome)
    requires UniqueNames(Stored(live0, ReplicationController)) && UniqueNames(Stored(live0, Pod))
    requires UniqueNames(Stored(live0, Secret)) && UniqueNames(Stored(live0, Service))
    requires After(live0, races, fuel, cluster.live, cluster.calls, start, 0)
    requires DeletesRemovable(live0, cluster.calls, start)
    modifies cluster
    ensures outcome == CleanupOutcome(live0, races, fuel)
    ensures After(live0, races, fuel, cluster.live, cluster.calls, start, RunCount(live0, races, fuel))
    ensures old(cluster.calls) < cluster.calls && cluster.calls[|old(cluster.calls)|] == ListCall(ReplicationController)
    ensures DeletesRemovable(live0, cluster.calls, start)
  {
    outcome := DrainInTurn(cluster, ReplicationController, races, fuel, live0, start, 0);
    if outcome != Drained {
      assert RunCount(live0, races, fuel) == 1;
      return;
    }
    outcome := DrainInTurn(cluster, Pod, races, fuel, live0, start, 1);
    if outcome != Drained {
      assert RunCount(live0, races, fuel) == 2;
      return;
    }
    outcome := DrainSecretsAndServices(cluster, races, fuel, live0, start);
  }

  /** The secret drain, then, if it converged, the service drain. */
  method DrainSecretsAndServices(cluster: Cluster, races: Kind -> Races, fuel: nat,
                                 ghost live0: map<Kind, seq<Record>>, ghost start: nat)
    returns (outcome: Outcome)
    requires UniqueNames(Stored(live0, Secret)) && UniqueNames(Stored(live0, Service))
    requires KindOutcome(live0, races, fuel, ReplicationController) == Drained
    requires KindOutcome(live0, races, fuel, Pod) == Drained
    requires After(live0, races, fuel, cluster.live, cluster.calls, start, 2)
    requires DeletesRemovable(live0, cluster.calls, start)
    modifies cluster
    ensures outcome == CleanupOutcome(live0, races, fuel)
    ensures After(live0, races, fuel, cluster.live, cluster.calls, start, RunCount(live0, races, fuel))
    ensures old(cluster.calls) < cluster.calls
    ensures DeletesRemovable(live0, cluster.calls, start)
  {
    outcome := DrainInTurn(cluster, Secret, races, fuel, live0, start, 2);
    if outcome != Drained {
      assert RunCount(live0, races, fuel) == 3;
      return;
    }
    outcome := DrainInTurn(cluster, Service, races, fuel, live0, start, 3);
    assert RunCount(live0, races, fuel) == 4;
  }

  /** When every drain converges, every kind it drains is down to its threshold. */
  lemma AllDrained(live0: map<Kind, seq<Record>>, races: Kind -> Races, fuel: nat, live: map<Kind, seq<Record>>)
    requires CleanupOutcome(live0, races, fuel) == Drained
    requires forall k ::
               Stored(live, k) == (if Runs(live0, races, fuel, k) then KindStore(live0, races, fuel, k) else Stored(live0, k))
    ensures DrainedBelow(live, |Order|)
  {
    assert RunCount(live0, races, fuel) == 4;
    DrainedKind(live0, races, fuel, live, ReplicationController);
    DrainedKind(live0, races, fuel, live, Pod);
    DrainedKind(live0, races, fuel, live, Secret);
    DrainedKind(live0, races, fuel, live, Service);
  }

  lemma DrainedKind(live0: map<Kind, seq<Record>>, races: Kind -> Races, fuel: nat, live: map<Kind, seq<Record>>, kind: Kind)
    requires KindOutcome(live0, races, fuel, kind) == Drained
    requires Stored(live, kind) == KindStore(live0, races, fuel, kind)
    ensures |Stored(live, kind)| <= Threshold(kind)
  {
  }

  /**
   * `cleanup_objects`, with the reachability probe of the configured API
   * host given as `reachable`. The Python function returns nothing in
   * either case; when the probe fails it does nothing, which the model
   * reports as `Drained` with the store and the trace unchanged.
   */
  method CleanupObjects(cluster: Cluster, reachable: bool, races: Kind -> Races, fuel: nat) returns (outcome: Outcome)
    requires UniqueNames(Stored(cluster.live, ReplicationController)) && UniqueNames(Stored(cluster.live, Pod))
    requires UniqueNames(Stored(cluster.live, Secret)) && UniqueNames(Stored(cluster.live, Service))
    modifies cluster
    ensures !reachable ==> outcome == Drained && cluster.live == old(cluster.live) && cluster.calls == old(cluster.calls)
    ensures reachable ==> outcome == CleanupOutcome(old(cluster.live), races, fuel)
    ensures reachable && outcome == Drained ==> DrainedBelow(cluster.live, |Order|)
    ensures forall k ::
              Stored(cluster.live, k) ==
                (if reachable && Runs(old(cluster.live), races, fuel, k) then KindStore(old(cluster.live), races, fuel, k)
                 else Stored(old(cluster.live), k))
    ensures Stored(cluster.live, Deployment) == Stored(old(cluster.live), Deployment)
    ensures old(cluster.calls) <= cluster.calls
    ensures InOrder(cluster.calls, |old(cluster.calls)|)
    ensures reachable ==>
      |old(cluster.calls)| < |cluster.calls| && cluster.calls[|old(cluster.calls)|] == ListCall(ReplicationController)
    ensures reachable ==>
      forall k :: Runs(old(cluster.live), races, fuel, k) ==> Listed(cluster.calls, |old(cluster.calls)|, k)
    ensures forall j :: |old(cluster.calls)| <= j < |cluster.calls| ==>
      Runs(old(cluster.live), races, fuel, cluster.calls[j].kind)
    ensures DeletesRemovable(old(cluster.live), cluster.calls, |old(cluster.calls)|)
  {
    outcome := Drained;
    if !reachable {
      return;
    }
    ghost var live0 := cluster.live;
    ghost var start := |cluster.calls|;
    assert Order == [ReplicationController, Pod, Secret, Service];
    outcome := DrainAll(cluster, races, fuel, live0, start);
    Finish(live0, races, fuel, cluster.live, cluster.calls, start);
    if outcome == Drained {
      AllDrained(live0, races, fuel, cluster.live);
    }
  }
}
