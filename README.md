# Cluster cleanup helpers of kubernetes-py, in Dafny

kubernetes-py's test suite resets its cluster with helpers in
`tests/utils.py`. This project models their core and proves properties of it.

- **`is_reachable`**, string part only. The API host string loses every
  `"//"` and is split on `':'`. Three parts give scheme, host and port text.
  Two parts give scheme and host, with port 80 for `http`, 443 for `https`
  and none otherwise. Any other part count raises a ValueError from the
  second tuple unpacking; that line is outside the `try`, so the error
  escapes. The connection attempt is an oracle parameter (`text.dfy`,
  `endpoint.dfy`).
- **The protection predicates.** `_is_api_server` is modelled on decoded
  JSON values, using Python's own `in` and `[]`. The secret check is
  `'service-account-token' in obj.model.model['type']`. Both are tied to
  records that carry a name, labels and an optional type (`policy.dfy`).
- **The five drains**: `cleanup_pods`, `cleanup_rcs`, `cleanup_secrets`,
  `cleanup_services` and `cleanup_deployments`. They are one generic loop,
  `Drain.Cluster.Drain`, over a class `Cluster` that holds the store of every
  kind and a ghost trace of list, get and delete calls (`drain.dfy`).
  - Another client may delete a record just before the re-fetch or just
    before the delete (`Races`). The NotFound that follows skips only that
    record.
  - A fatal exception (a secret without `type`) aborts the drain.
  - The Python `while` loop has no bound. Here `fuel` caps the passes, and
    the outcome `Stuck` means the fuel ran out. With at least one pass of
    fuel, that happens exactly when the loop would never exit.
- **`cleanup_objects`.** The probe is a boolean. When it is true, the RC,
  pod, secret and service drains run in that order. The deployment drain
  never runs (`cleanup.dfy`). The Python function returns nothing; the
  model returns the outcome of its last drain, and `Drained` with nothing
  changed when the probe fails.

Line 32 of `tests/utils.py`, the fallback unpacking, is outside the `try`.
An endpoint with no ':' or more than two makes it raise ValueError, and
that exception escapes `is_reachable`: it does not become `False`. The
third part is passed to the connection as text, numeric or not
(`Endpoint.IsReachable`, `Endpoint.ParseWithPort`).

Because the loop only ever re-lists, a drain that has nothing left to delete
but still lists more records than its threshold never exits. When every
listed secret has a type, two service-account-token secrets are enough to
keep `cleanup_secrets` looping (`Cleanup.TwoTokensNeverDrain`); a secret
without a type makes the drain abort with KeyError instead. The same
threshold of one also errs the other way: a secret or service listing of a
single record exits the loop at once, so a converged drain can leave a
record its rule would delete, such as a lone opaque secret
(`Cleanup.LoneDeletableSurvives`). When no more records are protected than the
threshold allows, a drain always ends (`Drain.DrainEnds`).

## Model

| member | source | states |
|---|---|---|
| Text.StripDoubleSlashes | tests/utils.py:30 | `replace("//", "")` shortens the string by an even count and leaves a slash-free string unchanged |
| Text.StripSlashRun | tests/utils.py:30 | a run of n slashes before a non-slash shrinks to n mod 2 slashes, so "///" leaves one "/" |
| Text.StripRemovesOnlySlashes | tests/utils.py:30 | `replace("//", "")` removes slashes only: the other characters keep their order, and a leading non-slash stays first |
| Text.StripLeavesNoDoubleSlash | tests/utils.py:30 | after the replace no "//" remains |
| Text.ColonsSurviveStripping | tests/utils.py:30 | the replace keeps every ':', so it never changes the part count of the split |
| Text.StripSlashFreePrefix | tests/utils.py:30 | a prefix without slashes passes through the replace unchanged |
| Text.Split | tests/utils.py:30 | `split(':')` gives one more part than there are ':', no part holds ':', and joining the parts back gives the input |
| Text.SplitOfJoin | tests/utils.py:30 | splitting undoes joining when no part holds the separator |
| Text.Contains | tests/utils.py:175 | Python's substring `in` is true iff the pattern occurs at some index |
| Endpoint.ParseEndpoint | tests/utils.py:29-32 | parsing succeeds iff the host string holds one or two ':'; otherwise the ValueError reports the part count, ':' count plus one. With two ':' the result is the three colon-free parts of the stripped string, the port kept as text; with one ':' it is the two colon-free parts and the scheme's default port |
| Endpoint.IsReachable | tests/utils.py:26-46 | fails with the parse error iff the ':' count is neither 1 nor 2 (the error escapes, it is not `False`); otherwise the answer is the connection oracle on the parsed host and port |
| Endpoint.StripSchemeSeparator | tests/utils.py:30 | "scheme://rest" becomes "scheme:rest" when neither side holds a slash |
| Endpoint.ParseWithPort | tests/utils.py:30-35 | "scheme://host:port" yields scheme, host and the port text verbatim, numeric or not |
| Endpoint.ParseWithoutPort | tests/utils.py:32-40 | "scheme://host" yields scheme and host, with port 80 for http, 443 for https and none for any other scheme |
| Policy.Member | tests/utils.py:216-221 | Python's `in` raises TypeError exactly on a scalar (None); on a dict it tests the keys, on a string it tests for a substring, on a list it tests for an equal element |
| Policy.Index | tests/utils.py:222-224 | Python's `[]` succeeds exactly on a dict holding the key and returns that entry; otherwise it raises KeyError on a dict and TypeError on anything else |
| Policy.IsApiServer | tests/utils.py:211-226 | a non-dict gives false; true only when both labels sit at metadata.labels with values apiserver and kubernetes |
| Policy.ApiServerIff | tests/utils.py:211-226 | on input whose metadata and labels are dicts it never raises, and is true iff component is "apiserver" and provider is "kubernetes" |
| Policy.ApiServerRaisesOnNullMetadata | tests/utils.py:216 | with `metadata` null, `'labels' in None` raises TypeError |
| Policy.ApiServerOnRecords | tests/utils.py:190 | on a listing entry the check is exactly "labelled component=apiserver and provider=kubernetes" |
| Policy.IsTokenSecret | tests/utils.py:175 | a secret without `type` raises; a string type gives true iff "service-account-token" occurs in it |
| Policy.TokenSecretOnRecords | tests/utils.py:175 | a secret without `type` raises KeyError; otherwise it is a token secret iff "service-account-token" occurs in its type |
| Policy.Threshold | tests/utils.py:171-186 | the loop bound is at most 1, and it is 1 exactly for the kinds whose rule can keep a record (secrets and services) |
| Policy.Decide | tests/utils.py:146-191 | pods, RCs and deployments are always deleted; a secret is kept iff it has a type containing the marker and aborts with KeyError iff it has none; a service is kept iff its listing entry is labelled apiserver/kubernetes |
| Policy.PolicyTable | tests/utils.py:171-191 | a record is kept iff it is a token secret or an apiserver/kubernetes service; it aborts the drain iff it is a secret without type; pods, RCs and deployments are always deleted |
| Drain.Find | tests/utils.py:146 | `get` returns a stored record of that name, or NotFound when none has it |
| Drain.FindUnique | tests/utils.py:146 | when names are unique, `get` returns exactly the stored record |
| Drain.WithoutMembers | tests/utils.py:147 | `delete` removes the records of that name and nothing else |
| Drain.Kept | tests/utils.py:144-149 | a pass leaves exactly the listed records that the rule keeps and no other client removed, never more than were listed |
| Drain.KeptWithinProtected | tests/utils.py:143-149 | no more records survive a pass than the rule protects |
| Drain.KeptUnique | tests/utils.py:144-149 | a pass keeps names unique |
| Drain.KeptIdempotent | tests/utils.py:143-150 | a second pass over the survivors leaves them all, so re-listing makes no further progress |
| Drain.KeptCons | tests/utils.py:144-149 | the survivors of a listing are the first record, if it survives, followed by the survivors of the rest |
| Drain.PassOutcome | tests/utils.py:144-149 | a pass either completes or aborts; it completes iff no record raises a non-NotFound exception |
| Drain.PassOutcomeAt | tests/utils.py:144-149 | a pass aborts at the first record that raises, with that record's exception |
| Drain.PassStore | tests/utils.py:144-149 | after one pass, completed or aborted, the store holds only listed records, holds every listed record that survives, and is no longer than the listing |
| Drain.PassStoreComplete | tests/utils.py:144-149 | a pass that completes leaves exactly the survivors |
| Drain.PassStoreAt | tests/utils.py:144-149 | a pass that aborts at record i leaves the survivors before i and every record from i on |
| Drain.DrainOutcome | tests/utils.py:141-150 | a drain converges iff the listing is already within the threshold or one complete pass leaves at most threshold survivors; it aborts only after a pass that meets a raising record |
| Drain.DrainStore | tests/utils.py:141-150 | a drain leaves only listed records and every one that survives; a converged drain leaves at most threshold records |
| Drain.DrainStoreCases | tests/utils.py:141-150 | a drain stuck after a pass leaves that pass's survivors; with no pass it leaves the listing; one aborting at record i reports i's exception and leaves the survivors before i and every record from i on |
| Drain.DrainEnds | tests/utils.py:143-150 | when the rule protects at most threshold records, a drain with one pass available converges or aborts, never loops forever |
| Drain.WidenListed | tests/utils.py:143-150 | a delete allowed by one listing is allowed by any listing that contains it |
| Drain.ProtectedNeverDeleted | tests/utils.py:175-176 | a drain that deletes only Remove-verdict records never deletes a listed record its rule keeps |
| Drain.Cluster.List | tests/utils.py:142 | `list()` returns the stored records of the kind and changes nothing |
| Drain.Cluster.Get | tests/utils.py:146 | `get()` returns the record of that name or NotFound, and changes nothing |
| Drain.Cluster.Delete | tests/utils.py:147 | `delete()` removes the named record, reports NotFound when it was absent, and leaves other kinds alone |
| Drain.Cluster.Vanish | tests/utils.py:148 | another client's deletion removes the named record without a call from the drain |
| Drain.Cluster.Fetch | tests/utils.py:146-149 | the re-fetch finds the entry unless another client removed it first |
| Drain.Cluster.DeleteListed | tests/utils.py:147-149 | after a delete, found or raced, the entry is gone and the rest of the store is untouched |
| Drain.Cluster.Visit | tests/utils.py:145-149 | one iteration aborts iff the entry was not raced and its verdict is fatal, and then leaves the store as it was; otherwise the entry stays iff it survives. Its calls are exactly the re-fetch of the entry's name, NotFound iff another client removed it first, followed by a delete only when it was found and its verdict is Remove |
| Drain.Cluster.Step | tests/utils.py:144-149 | one iteration extends the pass's survivors by the entry iff it survives; an abort at entry i leaves the survivors before i and every record from i on; every delete is of a Remove-verdict record |
| Drain.Cluster.Sweep | tests/utils.py:144-149 | the `for` loop ends as `PassOutcome` says and leaves the store `PassStore` describes, exactly `Kept` when it completes; no protected record is deleted |
| Drain.Cluster.Pass | tests/utils.py:144-150 | a pass leaves the store `PassStore` describes, followed by a fresh listing, which after a completed pass is exactly the survivors |
| Drain.Cluster.Drain | tests/utils.py:139-150 | the drain ends as `DrainOutcome` says and leaves the store `DrainStore` describes, in every outcome; on convergence at most threshold records remain; stuck after a pass, the survivors remain; the first call is a list, and a listing already at the threshold issues no get or delete; only Remove-verdict records are deleted; other kinds are untouched |
| Cleanup.RunCount | tests/utils.py:132-136 | between one and four of the drains run |
| Cleanup.CleanupOutcome | tests/utils.py:132-136 | the outcome of `cleanup_objects` is the outcome of the last drain that runs |
| Cleanup.LastDrainDecides | tests/utils.py:132-136 | every drain before the last one that runs converged, and unless the last is the service drain, it did not |
| Cleanup.CleanupDrainedIff | tests/utils.py:132-136 | `cleanup_objects` converges iff each of its four drains converges |
| Cleanup.NoneProtected | tests/utils.py:143-149 | the pod, RC and deployment rules protect nothing |
| Cleanup.UnprotectedKindsDrain | tests/utils.py:139-208 | the pod, RC and deployment drains (lines 139-164 and 197-208) always converge, given one pass, whatever another client deletes |
| Cleanup.LoneDeletableSurvives | tests/utils.py:171-186 | a secret or service listing of one record that its rule would delete converges at once and leaves that record, because the loop runs only above one record |
| Cleanup.TypedSecretsSound | tests/utils.py:174-175 | a pass over secrets that all have a type never aborts |
| Cleanup.TwoTokensNeverDrain | tests/utils.py:171-179 | when every listed secret has a type, two token secrets that no other client removes keep `cleanup_secrets` looping forever |
| Cleanup.TokenSecretNeverDeleted | tests/utils.py:175-176 | the secret drain never deletes a secret whose type contains "service-account-token" |
| Cleanup.ApiServerNeverDeleted | tests/utils.py:190-191 | the service drain never deletes a service whose listing entry is labelled apiserver/kubernetes |
| Cleanup.AppendDrain | tests/utils.py:130-136 | appending the calls of a drain of a later kind keeps the call trace in order |
| Cleanup.AdvanceStores | tests/utils.py:133-136 | after the drain of one more kind, every kind up to it holds what its drain leaves and every later kind still holds its original store |
| Cleanup.AdvanceCalls | tests/utils.py:133-136 | after the drain of one more kind, every kind up to it has been listed and no call concerns a later kind |
| Cleanup.DrainInTurn | tests/utils.py:133-136 | each drain in the sequence ends as it would on the original store and leaves its own kind as its drain would; no other kind changes; its first call lists its kind; afterwards the kinds drained so far hold their drained stores, later kinds their original ones, the trace stays in order, and every delete so far names a Remove-verdict record of the original store |
| Cleanup.DrainAll | tests/utils.py:133-136 | running the drains in order until one does not converge ends with the outcome of `cleanup_objects`, with exactly the drains that run applied, starts by listing RCs, and deletes only Remove-verdict records of the original store |
| Cleanup.DrainSecretsAndServices | tests/utils.py:135-136 | after RCs and pods converge, the secret and service drains end with the outcome of `cleanup_objects`, apply exactly the drains that run, and delete only Remove-verdict records of the original store |
| Cleanup.AdvanceDeletes | tests/utils.py:133-136 | appending a drain that deletes only Remove-verdict records of its kind's original listing keeps every delete of the trace to Remove-verdict records |
| Cleanup.CleanupKeepsTokenSecrets | tests/utils.py:175-176 | `cleanup_objects` never deletes a stored secret whose type contains "service-account-token" |
| Cleanup.CleanupKeepsApiServer | tests/utils.py:190-191 | `cleanup_objects` never deletes a stored service labelled apiserver/kubernetes |
| Cleanup.Finish | tests/utils.py:132-136 | once the drains stop, each kind whose drain ran holds what that drain leaves and every other kind holds its original store; every kind that ran was listed, and every call concerns a kind that ran |
| Cleanup.DrainedKind | tests/utils.py:171 | a kind whose drain converged holds no more records than its threshold |
| Cleanup.AllDrained | tests/utils.py:132-136 | when `cleanup_objects` converges, RCs and pods are empty and at most one secret and one service remain, which need not be protected ones |
| Cleanup.CleanupObjects | tests/utils.py:130-136 | with the probe false, nothing happens; otherwise RCs, pods, secrets and services are drained in that order, stopping at the first drain that does not converge. Each kind whose drain ran holds what that drain leaves, whatever its outcome; every later kind and deployments keep their stores, and no call concerns them; every kind that ran was listed, the first call lists RCs, every delete names a record of the original store whose verdict is Remove, and on success all four kinds are at their thresholds |

## Left out

- The connection attempt (`socket.create_connection`, its 0.5 s timeout and `close`) is network I/O. It is the boolean oracle `connects` in `Endpoint.IsReachable`.
- `K8sConfig`, the kubeconfig path and its fallback are configuration and filesystem plumbing. So are the `create_*` factories, which wrap library constructors; `kubernetes` is not part of this model.
- The real `list`, `get` and `delete` calls are network calls. They are replaced by an in-memory store, and another client's deletions by the `Races` name sets.
- Drain.Cluster.Drain: of the errors the API calls can raise, only NotFound is modelled. Authorization failures, server errors and time-outs on `list`, `get` or `delete` are not; in the model only the secret rule's KeyError makes a drain fail.
- Records created while a drain runs (a controller respawning pods) are not modelled. The store is closed.
- The reachability checks that each drain repeats are the same oracle. `Cleanup.CleanupObjects` takes the probe as a boolean. So a malformed API host that would raise in `is_reachable` is not followed into `cleanup_objects`.
- Drain.Cluster.Drain: `fuel` bounds the passes of the unbounded `while` loop, and `Stuck` means the fuel ran out. With fuel 0 no pass runs, so `Stuck` then says nothing about the real loop. With fuel of at least 1, `Stuck` is reached exactly when the first pass completes and its survivors exceed the threshold. The loop keeps passing until the fuel is spent, and `Drain.KeptIdempotent` shows that every later pass leaves the same survivors, so the real loop never exits.
- Drain.Cluster.Drain: names are assumed unique within a kind (a precondition), as they are in the API. Records are typed, so a listing entry without `metadata.name` (a KeyError in the source) is not modelled.
- Drain.Cluster.Drain: a re-fetched object is the listed record itself. A record changed between list and get is not modelled; secrets are still judged through the fetched argument and services through the listing entry, as the source does.
- Policy.ApiServerIff: "never raises" holds only when `metadata` and `labels` are dicts, as in every API response. `Policy.ApiServerRaisesOnNullMetadata` shows the source raises otherwise.
