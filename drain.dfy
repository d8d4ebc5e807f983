/**
 * The five `cleanup_*` drains as one loop over an in-memory cluster store.
 * A drain lists the records of one kind and, while the listing is longer
 * than the kind's threshold, re-fetches every listed name, skips it when
 * another client has already removed it (NotFound), keeps it when the
 * policy protects it and deletes it otherwise; then it lists again.
 *
 * The store is closed: nothing creates records while a drain runs. The
 * only other actor is a client that deletes records, named by `Races`,
 * just before the drain re-fetches them or just before it deletes them.
 * The Python loop has no bound; `fuel` caps the number of passes here and
 * the outcome `Stuck` says the fuel ran out. With fuel of at least one
 * pass, in the closed store, that is exactly a loop that never exits.
 */
module Drain {
  import opened Wrappers
  import opened Policy

  /** Names another client deletes just before this drain's re-fetch, or just before its delete. */
  datatype Races = Races(beforeGet: set<string>, beforeDelete: set<string>)

  /** The calls a drain makes against the API, in order. */
  datatype Call =
    | ListCall(kind: Kind)
    | GetCall(kind: Kind, name: string, found: bool)
    | DeleteCall(kind: Kind, name: string, found: bool)

  /** How a drain ends: converged, aborted by a non-NotFound exception, or out of fuel (`Stuck`). */
  datatype Outcome = Drained | Failed(name: string, error: PyError) | Stuck

  /** Names identify records within a kind. */
  predicate UniqueNames(s: seq<Record>)
  {
    forall i, j :: 0 <= i < j < |s| ==> s[i].name != s[j].name
  }

  lemma SameName(s: seq<Record>, x: Record, y: Record)
    requires UniqueNames(s) && x in s && y in s && x.name == y.name
    ensures x == y
  {
    var i :| 0 <= i < |s| && s[i] == x;
    var j :| 0 <= j < |s| && s[j] == y;
    assert i == j;
  }

  /** The API's `get` by name: the record of that name, or NotFound. */
  function Find(s: seq<Record>, name: string): (r: Option<Record>)
    ensures r.Some? ==> r.value in s && r.value.name == name
    ensures r.None? ==> forall x :: x in s ==> x.name != name
  {
    if s == [] then None
    else if s[0].name == name then Some(s[0])
    else Find(s[1..], name)
  }

  /** On a store with unique names, `get` returns exactly the stored record. */
  lemma FindUnique(s: seq<Record>, x: Record)
    requires UniqueNames(s) && x in s
    ensures Find(s, x.name) == Some(x)
  {
    SameName(s, x, Find(s, x.name).value);
  }

  /** The API's `delete` by name: the store without the record of that name. */
  function Without(s: seq<Record>, name: string): seq<Record>
  {
    if s == [] then []
    else (if s[0].name == name then [] else [s[0]]) + Without(s[1..], name)
  }

  /** Deleting a name removes the records of that name and nothing else. */
  lemma {:induction false} WithoutMembers(s: seq<Record>, name: string)
    ensures forall x :: x in Without(s, name) <==> x in s && x.name != name
  {
    if s != [] {
      WithoutMembers(s[1..], name);
      assert s == [s[0]] + s[1..];
    }
  }

  lemma {:induction false} WithoutAbsent(s: seq<Record>, name: string)
    requires forall x :: x in s ==> x.name != name
    ensures Without(s, name) == s
  {
    if s != [] {
      WithoutAbsent(s[1..], name);
      assert s == [s[0]] + s[1..];
    }
  }

  lemma {:induction false} WithoutAppend(a: seq<Record>, b: seq<Record>, name: string)
    ensures Without(a + b, name) == Without(a, name) + Without(b, name)
  {
    if a == [] {
      assert a + b == b;
    } else {
      WithoutAppend(a[1..], b, name);
      assert (a + b)[1..] == a[1..] + b;
      var head := if a[0].name == name then [] else [a[0]];
      calc {
        Without(a + b, name);
        head + Without(a[1..] + b, name);
        head + (Without(a[1..], name) + Without(b, name));
        (head + Without(a[1..], name)) + Without(b, name);
        Without(a, name) + Without(b, name);
      }
    }
  }

  /**
   * A kind's deletion rule: the verdict on a listing entry given the object
   * re-fetched under its name (`RuleOf(kind)` for the five kinds).
   */
  type Rule = (Record, Record) -> Verdict

  /** A record outlives one pass: its rule keeps it and no other client removed it first. */
  predicate Survives(rule: Rule, r: Record, gone: set<string>)
  {
    rule(r, r) == Keep && r.name !in gone
  }

  /**
   * The records one pass leaves behind, in listing order: exactly the
   * listed records that survive.
   */
  function Kept(rule: Rule, s: seq<Record>, gone: set<string>): (k: seq<Record>)
    ensures forall r :: r in k <==> r in s && Survives(rule, r, gone)
    ensures |k| <= |s|
  {
    if s == [] then []
    else
      var last := s[|s| - 1];
      assert s == s[..|s| - 1] + [last];
      Kept(rule, s[..|s| - 1], gone) + (if Survives(rule, last, gone) then [last] else [])
  }

  /** Number of records the kind's policy protects. */
  function ProtectedCount(rule: Rule, s: seq<Record>): nat
  {
    if s == [] then 0
    else ProtectedCount(rule, s[..|s| - 1]) + (if rule(s[|s| - 1], s[|s| - 1]) == Keep then 1 else 0)
  }

  /** No more records survive a pass than the policy protects. */
  lemma {:induction false} KeptWithinProtected(rule: Rule, s: seq<Record>, gone: set<string>)
    ensures |Kept(rule, s, gone)| <= ProtectedCount(rule, s)
  {
    if s != [] {
      KeptWithinProtected(rule, s[..|s| - 1], gone);
    }
  }

  lemma {:induction false} KeptOfSurvivors(rule: Rule, s: seq<Record>, gone: set<string>)
    requires forall r :: r in s ==> Survives(rule, r, gone)
    ensures Kept(rule, s, gone) == s
  {
    if s != [] {
      assert s == s[..|s| - 1] + [s[|s| - 1]];
      KeptOfSurvivors(rule, s[..|s| - 1], gone);
    }
  }

  /** A pass leaves names unique. */
  lemma {:induction false} KeptUnique(rule: Rule, s: seq<Record>, gone: set<string>)
    requires UniqueNames(s)
    ensures UniqueNames(Kept(rule, s, gone))
  {
    if s != [] {
      var init := s[..|s| - 1];
      var last := s[|s| - 1];
      assert UniqueNames(init) by {
        forall i, j | 0 <= i < j < |init| ensures init[i].name != init[j].name {
          assert init[i] == s[i] && init[j] == s[j];
        }
      }
      KeptUnique(rule, init, gone);
      var k := Kept(rule, init, gone);
      if Survives(rule, last, gone) {
        forall x | x in k ensures x.name != last.name {
          var j :| 0 <= j < |init| && init[j] == x;
          assert s[j] == x;
        }
        var r := k + [last];
        forall i, j | 0 <= i < j < |r| ensures r[i].name != r[j].name {
          if j == |k| {
            assert r[i] in k;
          } else {
            assert r[i] == k[i] && r[j] == k[j];
          }
        }
      }
    }
  }

  /** A second pass over what a pass left behind changes nothing: the loop makes no further progress. */
  lemma KeptIdempotent(rule: Rule, s: seq<Record>, gone: set<string>)
    ensures Kept(rule, Kept(rule, s, gone), gone) == Kept(rule, s, gone)
  {
    KeptOfSurvivors(rule, Kept(rule, s, gone), gone);
  }

  /** A record does not abort a pass: another client removed it first, or its verdict is not fatal. */
  predicate Sound(rule: Rule, r: Record, gone: set<string>)
  {
    r.name in gone || !rule(r, r).Fatal?
  }

  predicate AllSound(rule: Rule, s: seq<Record>, gone: set<string>)
  {
    forall r :: r in s ==> Sound(rule, r, gone)
  }

  /**
   * How one pass over `s` ends: aborted by the first record whose verdict
   * is fatal, with that record's exception, or completed.
   */
  function PassOutcome(rule: Rule, s: seq<Record>, gone: set<string>): (o: Outcome)
    ensures o == Drained || o.Failed?
    ensures o == Drained <==> AllSound(rule, s, gone)
  {
    if s == [] then Drained
    else if !Sound(rule, s[0], gone) then Failed(s[0].name, rule(s[0], s[0]).error)
    else
      var o := PassOutcome(rule, s[1..], gone);
      assert s == [s[0]] + s[1..];
      o
  }

  /** A pass aborts at the first unsound record. */
  lemma {:induction false} PassOutcomeAt(rule: Rule, s: seq<Record>, gone: set<string>, i: nat)
    requires i < |s| && AllSound(rule, s[..i], gone) && !Sound(rule, s[i], gone)
    ensures PassOutcome(rule, s, gone) == Failed(s[i].name, rule(s[i], s[i]).error)
  {
    if i > 0 {
      assert s[0] in s[..i];
      assert s[1..][..i - 1] == s[1..i];
      assert forall r :: r in s[1..i] ==> r in s[..i];
      PassOutcomeAt(rule, s[1..], gone, i - 1);
    }
  }

  /** A pass over `[x] + t` handles `x` first. */
  lemma {:induction false} KeptCons(rule: Rule, x: Record, t: seq<Record>, gone: set<string>)
    ensures Kept(rule, [x] + t, gone) == (if Survives(rule, x, gone) then [x] else []) + Kept(rule, t, gone)
  {
    var s := [x] + t;
    var h := if Survives(rule, x, gone) then [x] else [];
    if t == [] {
      assert s[..|s| - 1] == [];
    } else {
      var init := t[..|t| - 1];
      var last := t[|t| - 1];
      var tl := if Survives(rule, last, gone) then [last] else [];
      assert s[..|s| - 1] == [x] + init;
      assert s[|s| - 1] == last;
      calc {
        Kept(rule, s, gone);
        Kept(rule, [x] + init, gone) + tl;
        { KeptCons(rule, x, init, gone); }
        (h + Kept(rule, init, gone)) + tl;
        h + (Kept(rule, init, gone) + tl);
        h + Kept(rule, t, gone);
      }
    }
  }

  /**
   * What one pass leaves in the store, whether it completes or aborts: the
   * records before the first one that raises are filtered, that record and
   * everything after it are left untouched.
   */
  function PassStore(rule: Rule, s: seq<Record>, gone: set<string>): (p: seq<Record>)
    ensures forall r :: r in p ==> r in s
    ensures forall r :: r in s && Survives(rule, r, gone) ==> r in p
    ensures |p| <= |s|
  {
    if s == [] then []
    else if !Sound(rule, s[0], gone) then s
    else
      assert s == [s[0]] + s[1..];
      (if Survives(rule, s[0], gone) then [s[0]] else []) + PassStore(rule, s[1..], gone)
  }

  /** A pass that completes leaves exactly the survivors. */
  lemma {:induction false} PassStoreComplete(rule: Rule, s: seq<Record>, gone: set<string>)
    requires AllSound(rule, s, gone)
    ensures PassStore(rule, s, gone) == Kept(rule, s, gone)
  {
    if s != [] {
      PassStoreComplete(rule, s[1..], gone);
      KeptCons(rule, s[0], s[1..], gone);
      assert s == [s[0]] + s[1..];
    }
  }

  /** A pass that aborts at record `i` has filtered the records before it and left the rest alone. */
  lemma {:induction false} PassStoreAt(rule: Rule, s: seq<Record>, gone: set<string>, i: nat)
    requires i < |s| && AllSound(rule, s[..i], gone) && !Sound(rule, s[i], gone)
    ensures PassStore(rule, s, gone) == Kept(rule, s[..i], gone) + s[i..]
  {
    if i == 0 {
      assert s[..0] == [] && s[0..] == s;
    } else {
      assert s[0] in s[..i];
      var t := s[1..];
      var h := if Survives(rule, s[0], gone) then [s[0]] else [];
      assert t[..i - 1] == s[1..i] && t[i - 1..] == s[i..] && t[i - 1] == s[i];
      assert forall r :: r in s[1..i] ==> r in s[..i];
      calc {
        PassStore(rule, s, gone);
        h + PassStore(rule, t, gone);
        { PassStoreAt(rule, t, gone, i - 1); }
        h + (Kept(rule, s[1..i], gone) + s[i..]);
        (h + Kept(rule, s[1..i], gone)) + s[i..];
        { KeptCons(rule, s[0], s[1..i], gone); }
        Kept(rule, [s[0]] + s[1..i], gone) + s[i..];
        { assert [s[0]] + s[1..i] == s[..i]; }
        Kept(rule, s[..i], gone) + s[i..];
      }
    }
  }

  /**
   * How a drain ends, given the listing it starts from: nothing to do, a
   * pass aborted, converged after one pass, or out of fuel. With fuel of at
   * least one pass, `Stuck` means re-listing survivors it will never delete,
   * so the loop never exits; with fuel 0 no pass runs at all.
   */
  function DrainOutcome(rule: Rule, listing: seq<Record>, gone: set<string>, threshold: nat, fuel: nat): (o: Outcome)
    ensures o == Drained <==>
      |listing| <= threshold || (fuel > 0 && AllSound(rule, listing, gone) && |Kept(rule, listing, gone)| <= threshold)
    ensures o.Failed? ==> |listing| > threshold && fuel > 0 && !AllSound(rule, listing, gone)
  {
    if |listing| <= threshold then Drained
    else if fuel == 0 then Stuck
    else if PassOutcome(rule, listing, gone).Failed? then PassOutcome(rule, listing, gone)
    else if |Kept(rule, listing, gone)| <= threshold then Drained
    else Stuck
  }

  /**
   * What a drain leaves in the store of its kind: the listing itself when
   * no pass runs, otherwise what the first pass leaves (later passes change
   * nothing). Protected records that no other client removes are still there.
   */
  function DrainStore(rule: Rule, listing: seq<Record>, gone: set<string>, threshold: nat, fuel: nat): (d: seq<Record>)
    ensures forall r :: r in d ==> r in listing
    ensures forall r :: r in listing && Survives(rule, r, gone) ==> r in d
    ensures DrainOutcome(rule, listing, gone, threshold, fuel) == Drained ==> |d| <= threshold
  {
    if |listing| <= threshold || fuel == 0 then listing
    else
      if AllSound(rule, listing, gone) then
        PassStoreComplete(rule, listing, gone);
        PassStore(rule, listing, gone)
      else
        PassStore(rule, listing, gone)
  }

  /**
   * The store a drain leaves, outcome by outcome: a drain that gets stuck
   * after a pass leaves that pass's survivors; one that never passes leaves
   * the listing; one that aborts at the first record that raises leaves the
   * survivors before it and every record from it on.
   */
  lemma DrainStoreCases(rule: Rule, listing: seq<Record>, gone: set<string>, threshold: nat, fuel: nat)
    ensures DrainOutcome(rule, listing, gone, threshold, fuel) == Stuck && fuel > 0 ==>
              DrainStore(rule, listing, gone, threshold, fuel) == Kept(rule, listing, gone)
    ensures fuel == 0 ==> DrainStore(rule, listing, gone, threshold, fuel) == listing
    ensures forall i :: 0 <= i < |listing| && |listing| > threshold && fuel > 0 &&
                        AllSound(rule, listing[..i], gone) && !Sound(rule, listing[i], gone) ==>
              DrainOutcome(rule, listing, gone, threshold, fuel) == Failed(listing[i].name, rule(listing[i], listing[i]).error) &&
              DrainStore(rule, listing, gone, threshold, fuel) == Kept(rule, listing[..i], gone) + listing[i..]
  {
    if AllSound(rule, listing, gone) {
      PassStoreComplete(rule, listing, gone);
    }
    forall i | 0 <= i < |listing| && |listing| > threshold && fuel > 0 &&
               AllSound(rule, listing[..i], gone) && !Sound(rule, listing[i], gone)
      ensures DrainOutcome(rule, listing, gone, threshold, fuel) == Failed(listing[i].name, rule(listing[i], listing[i]).error)
      ensures DrainStore(rule, listing, gone, threshold, fuel) == Kept(rule, listing[..i], gone) + listing[i..]
    {
      PassOutcomeAt(rule, listing, gone, i);
      PassStoreAt(rule, listing, gone, i);
    }
  }

  /** A drain whose policy protects no more records than its threshold always ends, given one pass. */
  lemma DrainEnds(rule: Rule, listing: seq<Record>, gone: set<string>, threshold: nat, fuel: nat)
    requires fuel > 0 && ProtectedCount(rule, listing) <= threshold
    ensures DrainOutcome(rule, listing, gone, threshold, fuel) != Stuck
  {
    KeptWithinProtected(rule, listing, gone);
  }

  /** The verdict on the listed record of that name; a name not listed is never up for deletion. */
  function ListedVerdict(rule: Rule, listed: seq<Record>, name: string): Verdict
  {
    match Find(listed, name)
    case Some(r) => rule(r, r)
    case None => Keep
  }

  /** A call concerns `kind`, and a delete names a listed record whose verdict is Remove. */
  ghost predicate Removable(rule: Rule, kind: Kind, listed: seq<Record>, c: Call)
  {
    c.kind == kind && (c.DeleteCall? ==> ListedVerdict(rule, listed, c.name) == Remove)
  }

  /** Every call from index `from` on is Removable: protected records are never deleted. */
  ghost predicate OnlyRemovableDeleted(rule: Rule, kind: Kind, listed: seq<Record>, cs: seq<Call>, from: nat)
  {
    forall j :: from <= j < |cs| ==> Removable(rule, kind, listed, cs[j])
  }

  lemma WidenListed(rule: Rule, kind: Kind, sub: seq<Record>, listed: seq<Record>, c: Call)
    requires Removable(rule, kind, sub, c)
    requires UniqueNames(listed) && forall r :: r in sub ==> r in listed
    ensures Removable(rule, kind, listed, c)
  {
    if c.DeleteCall? {
      FindUnique(listed, Find(sub, c.name).value);
    }
  }

  /** A drain that keeps to its rule never deletes a record its rule does not mark Remove. */
  lemma ProtectedNeverDeleted(rule: Rule, kind: Kind, listed: seq<Record>, cs: seq<Call>, from: nat, r: Record)
    requires UniqueNames(listed) && OnlyRemovableDeleted(rule, kind, listed, cs, from)
    requires r in listed && rule(r, r) != Remove
    ensures forall j :: from <= j < |cs| ==> !(cs[j].DeleteCall? && cs[j].name == r.name)
  {
    FindUnique(listed, r);
  }

  /** Extending a pass by one entry adds that entry to what it leaves iff the entry survives. */
  lemma PassStep(rule: Rule, listing: seq<Record>, i: nat, gone: set<string>)
    requires i < |listing|
    ensures Kept(rule, listing[..i + 1], gone) ==
      Kept(rule, listing[..i], gone) + (if Survives(rule, listing[i], gone) then [listing[i]] else [])
    ensures forall x :: x in Kept(rule, listing[..i], gone) ==> x in listing[..i]
  {
    assert listing[..i + 1][..i] == listing[..i];
  }

  lemma SplitAt(done: seq<Record>, listing: seq<Record>, i: nat)
    requires i < |listing|
    ensures done + listing[i..] == done + [listing[i]] + listing[i + 1..]
    ensures listing[..i + 1] == listing[..i] + [listing[i]]
  {
    assert listing[i..] == [listing[i]] + listing[i + 1..];
  }

  lemma WholePrefix(s: seq<Record>)
    ensures s[..|s|] == s
  {
  }

  /** In a listing with unique names, no other entry shares the name of entry `i`. */
  lemma OthersNamedDifferently(listing: seq<Record>, i: nat)
    requires UniqueNames(listing) && i < |listing|
    ensures forall x :: x in listing[..i] ==> x.name != listing[i].name
    ensures forall x :: x in listing[i + 1..] ==> x.name != listing[i].name
  {
    forall x | x in listing[..i] ensures x.name != listing[i].name {
      var j :| 0 <= j < i && listing[j] == x;
    }
    forall x | x in listing[i + 1..] ensures x.name != listing[i].name {
      var j :| 0 <= j < |listing| - i - 1 && listing[i + 1..][j] == x;
      assert listing[i + 1 + j] == x;
    }
  }

  /** Removing a name held by exactly one record takes out that record only. */
  lemma WithoutOne(done: seq<Record>, entry: Record, rest: seq<Record>)
    requires forall x :: x in done ==> x.name != entry.name
    requires forall x :: x in rest ==> x.name != entry.name
    ensures Without(done + [entry] + rest, entry.name) == done + rest
  {
    var name := entry.name;
    var tail := [entry] + rest;
    WithoutAbsent(done, name);
    WithoutAbsent(rest, name);
    assert tail[0] == entry && tail[1..] == rest;
    assert Without(tail, name) == rest;
    WithoutAppend(done, tail, name);
    assert done + [entry] + rest == done + tail;
  }

  /** `get` finds a record whose name no other record carries. */
  lemma FindOne(done: seq<Record>, entry: Record, rest: seq<Record>)
    requires forall x :: x in done ==> x.name != entry.name
    requires forall x :: x in rest ==> x.name != entry.name
    ensures Find(done + [entry] + rest, entry.name) == Some(entry)
  {
    assert entry in done + [entry] + rest;
  }

  /**
   * The calls one iteration makes for a listed entry: the re-fetch, which
   * finds the entry unless another client removed it first, then, only
   * when it was found and its verdict is Remove, the delete.
   */
  function VisitCalls(rule: Rule, kind: Kind, entry: Record, races: Races): seq<Call>
  {
    if entry.name in races.beforeGet then [GetCall(kind, entry.name, false)]
    else
      [GetCall(kind, entry.name, true)] +
      (if rule(entry, entry) == Remove then [DeleteCall(kind, entry.name, entry.name !in races.beforeDelete)] else [])
  }

  /** A get or delete of `entry` in `kind`, and a delete only when its verdict is Remove. */
  ghost predicate EntryCall(rule: Rule, kind: Kind, entry: Record, c: Call)
  {
    c.kind == kind && !c.ListCall? && c.name == entry.name && (c.DeleteCall? ==> rule(entry, entry) == Remove)
  }

  lemma EntryInListing(rule: Rule, kind: Kind, entry: Record, listing: seq<Record>, c: Call)
    requires UniqueNames(listing) && entry in listing
    requires EntryCall(rule, kind, entry, c)
    ensures Removable(rule, kind, listing, c)
  {
    FindUnique(listing, entry);
  }

  /** The records of one kind in a store. */
  function Stored(live: map<Kind, seq<Record>>, kind: Kind): seq<Record>
  {
    if kind in live then live[kind] else []
  }

  /** The cluster: the live records of every kind, and the calls made against it. */
  class Cluster {
    var live: map<Kind, seq<Record>>
    ghost var calls: seq<Call>

    /** What `list()` returns for a kind. */
    function Listing(kind: Kind): seq<Record>
      reads this
    {
      Stored(live, kind)
    }

    constructor (initial: map<Kind, seq<Record>>)
      ensures live == initial && calls == []
    {
      live := initial;
      calls := [];
    }

    method List(kind: Kind) returns (listing: seq<Record>)
      modifies this
      ensures listing == Listing(kind)
      ensures live == old(live) && calls == old(calls) + [ListCall(kind)]
    {
      listing := Listing(kind);
      calls := calls + [ListCall(kind)];
    }

    method Get(kind: Kind, name: string) returns (found: Option<Record>)
      modifies this
      ensures found == Find(Listing(kind), name)
      ensures live == old(live) && calls == old(calls) + [GetCall(kind, name, found.Some?)]
    {
      found := Find(Listing(kind), name);
      calls := calls + [GetCall(kind, name, found.Some?)];
    }

    /** `delete()`: removes the named record; `found` is false for the NotFound race. */
    method Delete(kind: Kind, name: string) returns (found: bool)
      modifies this
      ensures found == Find(old(Listing(kind)), name).Some?
      ensures Listing(kind) == Without(old(Listing(kind)), name)
      ensures forall k :: k != kind ==> Stored(live, k) == Stored(old(live), k)
      ensures calls == old(calls) + [DeleteCall(kind, name, found)]
    {
      found := Find(Listing(kind), name).Some?;
      live := live[kind := Without(Listing(kind), name)];
      calls := calls + [DeleteCall(kind, name, found)];
    }

    /** Another client deletes the named record; this drain makes no call. */
    method Vanish(kind: Kind, name: string)
      modifies this
      ensures Listing(kind) == Without(old(Listing(kind)), name)
      ensures forall k :: k != kind ==> Stored(live, k) == Stored(old(live), k)
      ensures calls == old(calls)
    {
      live := live[kind := Without(Listing(kind), name)];
    }

    /** The re-fetch of a listed entry, after another client may have removed it. */
    method Fetch(kind: Kind, entry: Record, ghost done: seq<Record>, ghost rest: seq<Record>, raced: bool)
      returns (fetched: Option<Record>)
      requires Listing(kind) == done + [entry] + rest
      requires forall x :: x in done ==> x.name != entry.name
      requires forall x :: x in rest ==> x.name != entry.name
      modifies this
      ensures forall k :: k != kind ==> Stored(live, k) == Stored(old(live), k)
      ensures fetched == if raced then None else Some(entry)
      ensures Listing(kind) == if raced then done + rest else done + [entry] + rest
      ensures calls == old(calls) + [GetCall(kind, entry.name, !raced)]
    {
      if raced {
        WithoutOne(done, entry, rest);
        Vanish(kind, entry.name);
      } else {
        FindOne(done, entry, rest);
      }
      fetched := Get(kind, entry.name);
    }

    /** The delete of a listed entry, after another client may have removed it. */
    method DeleteListed(kind: Kind, entry: Record, ghost done: seq<Record>, ghost rest: seq<Record>, raced: bool)
      requires Listing(kind) == done + [entry] + rest
      requires forall x :: x in done ==> x.name != entry.name
      requires forall x :: x in rest ==> x.name != entry.name
      modifies this
      ensures forall k :: k != kind ==> Stored(live, k) == Stored(old(live), k)
      ensures Listing(kind) == done + rest
      ensures calls == old(calls) + [DeleteCall(kind, entry.name, !raced)]
    {
      WithoutOne(done, entry, rest);
      FindOne(done, entry, rest);
      if raced {
        Vanish(kind, entry.name);
        WithoutAbsent(done + rest, entry.name);
      }
      var found := Delete(kind, entry.name);
    }

    /**
     * One iteration of the `for` loop, on a listed entry whose name no other
     * stored record carries: re-fetch it, then keep or delete it.
     */
    method Visit(kind: Kind, rule: Rule, entry: Record, ghost done: seq<Record>, ghost rest: seq<Record>, races: Races)
      returns (fatal: Option<PyError>)
      requires Listing(kind) == done + [entry] + rest
      requires forall x :: x in done ==> x.name != entry.name
      requires forall x :: x in rest ==> x.name != entry.name
      modifies this
      ensures forall k :: k != kind ==> Stored(live, k) == Stored(old(live), k)
      ensures fatal.Some? <==> !Sound(rule, entry, races.beforeGet)
      ensures fatal.Some? ==> rule(entry, entry) == Fatal(fatal.value) && Listing(kind) == done + [entry] + rest
      ensures fatal.None? ==>
        Listing(kind) == done + (if Survives(rule, entry, races.beforeGet) then [entry] else []) + rest
      ensures calls == old(calls) + VisitCalls(rule, kind, entry, races)
      ensures forall j :: |old(calls)| <= j < |calls| ==> EntryCall(rule, kind, entry, calls[j])
    {
      var fetched := Fetch(kind, entry, done, rest, entry.name in races.beforeGet);
      fatal := None;
      if fetched.Some? {
        var verdict := rule(entry, fetched.value);
        if verdict.Fatal? {
          fatal := Some(verdict.error);
        } else if verdict == Remove {
          DeleteListed(kind, entry, done, rest, entry.name in races.beforeDelete);
        }
      }
    }

    /**
     * Iteration `i` of a pass: visit the entry, keeping the loop's account
     * of the store and of the calls made since `start`.
     */
    method Step(kind: Kind, rule: Rule, listing: seq<Record>, i: nat, races: Races, ghost start: nat)
      returns (fatal: Option<PyError>)
      requires i < |listing| && UniqueNames(listing)
      requires Listing(kind) == Kept(rule, listing[..i], races.beforeGet) + listing[i..]
      requires AllSound(rule, listing[..i], races.beforeGet)
      requires start <= |calls| && OnlyRemovableDeleted(rule, kind, listing, calls, start)
      modifies this
      ensures forall k :: k != kind ==> Stored(live, k) == Stored(old(live), k)
      ensures fatal.Some? ==>
        !Sound(rule, listing[i], races.beforeGet) && rule(listing[i], listing[i]) == Fatal(fatal.value) &&
        Listing(kind) == Kept(rule, listing[..i], races.beforeGet) + listing[i..]
      ensures fatal.None? ==>
        Listing(kind) == Kept(rule, listing[..i + 1], races.beforeGet) + listing[i + 1..] &&
        AllSound(rule, listing[..i + 1], races.beforeGet)
      ensures old(calls) <= calls
      ensures OnlyRemovableDeleted(rule, kind, listing, calls, start)
    {
      ghost var gone := races.beforeGet;
      var entry := listing[i];
      ghost var done := Kept(rule, listing[..i], gone);
      PassStep(rule, listing, i, gone);
      OthersNamedDifferently(listing, i);
      SplitAt(done, listing, i);
      ghost var before := calls;
      fatal := Visit(kind, rule, entry, done, listing[i + 1..], races);
      forall j | start <= j < |calls| ensures Removable(rule, kind, listing, calls[j]) {
        if j < |before| {
          assert calls[j] == before[j];
        } else {
          EntryInListing(rule, kind, entry, listing, calls[j]);
        }
      }
    }

    /**
     * One pass of the `for` loop over a listing: afterwards the store holds
     * exactly the survivors, unless a record without a verdict aborted it.
     */
    method Sweep(kind: Kind, rule: Rule, listing: seq<Record>, races: Races) returns (outcome: Outcome)
      requires listing == Listing(kind) && UniqueNames(listing)
      modifies this
      ensures forall k :: k != kind ==> Stored(live, k) == Stored(old(live), k)
      ensures outcome == PassOutcome(rule, listing, races.beforeGet)
      ensures Listing(kind) == PassStore(rule, listing, races.beforeGet)
      ensures outcome == Drained ==> Listing(kind) == Kept(rule, listing, races.beforeGet)
      ensures old(calls) <= calls
      ensures OnlyRemovableDeleted(rule, kind, listing, calls, |old(calls)|)
    {
      ghost var gone := races.beforeGet;
      ghost var start := |calls|;
      var i := 0;
      while i < |listing|
        invariant 0 <= i <= |listing|
        invariant forall k :: k != kind ==> Stored(live, k) == Stored(old(live), k)
        invariant Listing(kind) == Kept(rule, listing[..i], gone) + listing[i..]
        invariant AllSound(rule, listing[..i], gone)
        invariant old(calls) <= calls
        invariant OnlyRemovableDeleted(rule, kind, listing, calls, start)
      {
        var fatal := Step(kind, rule, listing, i, races, start);
        if fatal.Some? {
          PassOutcomeAt(rule, listing, gone, i);
          PassStoreAt(rule, listing, gone, i);
          outcome := Failed(listing[i].name, fatal.value);
          return;
        }
        i := i + 1;
      }
      WholePrefix(listing);
      PassStoreComplete(rule, listing, gone);
      outcome := Drained;
    }

    /**
     * The body of the `while` loop: one pass, then (unless it aborted) a
     * fresh listing. `original` is the listing the drain started from.
     */
    method Pass(kind: Kind, rule: Rule, listing: seq<Record>, races: Races, ghost original: seq<Record>)
      returns (outcome: Outcome, next: seq<Record>)
      requires listing == Listing(kind) && UniqueNames(listing)
      requires UniqueNames(original) && forall r :: r in listing ==> r in original
      modifies this
      ensures forall k :: k != kind ==> Stored(live, k) == Stored(old(live), k)
      ensures outcome == PassOutcome(rule, listing, races.beforeGet)
      ensures Listing(kind) == PassStore(rule, listing, races.beforeGet)
      ensures outcome == Drained ==> next == Listing(kind) == Kept(rule, listing, races.beforeGet)
      ensures old(calls) <= calls
      ensures OnlyRemovableDeleted(rule, kind, original, calls, |old(calls)|)
    {
      outcome := Sweep(kind, rule, listing, races);
      forall j | |old(calls)| <= j < |calls| ensures Removable(rule, kind, original, calls[j]) {
        WidenListed(rule, kind, listing, original, calls[j]);
      }
      next := listing;
      if outcome == Drained {
        next := List(kind);
      }
    }

    /**
     * `cleanup_pods`, `cleanup_rcs`, `cleanup_secrets`, `cleanup_services`
     * and `cleanup_deployments`: list, then pass over the listing while it
     * is longer than the kind's threshold, listing again after each pass.
     */
    method Drain(kind: Kind, rule: Rule, races: Races, fuel: nat) returns (outcome: Outcome)
      requires UniqueNames(Listing(kind))
      modifies this
      ensures forall k :: k != kind ==> Stored(live, k) == Stored(old(live), k)
      ensures outcome == DrainOutcome(rule, old(Listing(kind)), races.beforeGet, Threshold(kind), fuel)
      ensures outcome == Drained ==> |Listing(kind)| <= Threshold(kind)
      ensures Listing(kind) == DrainStore(rule, old(Listing(kind)), races.beforeGet, Threshold(kind), fuel)
      ensures outcome == Drained ==>
        Listing(kind) == if |old(Listing(kind))| <= Threshold(kind) then old(Listing(kind))
                         else Kept(rule, old(Listing(kind)), races.beforeGet)
      ensures outcome == Stuck && fuel > 0 ==> Listing(kind) == Kept(rule, old(Listing(kind)), races.beforeGet)
      ensures old(calls) < calls && calls[|old(calls)|] == ListCall(kind)
      ensures |old(Listing(kind))| <= Threshold(kind) ==> calls == old(calls) + [ListCall(kind)]
      ensures OnlyRemovableDeleted(rule, kind, old(Listing(kind)), calls, |old(calls)|)
    {
      ghost var original := Listing(kind);
      ghost var gone := races.beforeGet;
      ghost var start := |calls|;
      KeptUnique(rule, original, gone);
      if AllSound(rule, original, gone) {
        PassStoreComplete(rule, original, gone);
      }
      var listing := List(kind);
      var rounds: nat := 0;
      while |listing| > Threshold(kind)
        invariant forall k :: k != kind ==> Stored(live, k) == Stored(old(live), k)
        invariant listing == Listing(kind) && UniqueNames(listing)
        invariant rounds <= fuel
        invariant old(calls) < calls && calls[start] == ListCall(kind)
        invariant OnlyRemovableDeleted(rule, kind, original, calls, start)
        invariant rounds == 0 ==> listing == original && calls == old(calls) + [ListCall(kind)]
        invariant rounds > 0 ==> |original| > Threshold(kind)
        invariant rounds > 0 ==> listing == Kept(rule, original, gone) && PassOutcome(rule, original, gone) == Drained
        invariant rounds > 0 ==> AllSound(rule, listing, gone)
        decreases fuel - rounds
      {
        if rounds == fuel {
          outcome := Stuck;
          return;
        }
        if rounds > 0 {
          KeptIdempotent(rule, original, gone);
        }
        outcome, listing := Pass(kind, rule, listing, races, original);
        if outcome.Failed? {
          return;
        }
        rounds := rounds + 1;
      }
      outcome := Drained;
    }
  }
}
