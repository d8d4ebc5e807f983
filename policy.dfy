/**
 * What the drains may delete. Listing entries reach the Python code as
 * decoded JSON, so `_is_api_server` is modelled on such values with
 * Python's own `in` and `[]`: `in` is key membership on a dict, substring
 * search on a str, element search on a list and a TypeError on None or a
 * number; `[]` with a str key works only on a dict.
 */
module Policy {
  import opened Wrappers
  import opened Text

  /** A decoded JSON value: str, dict, list, or a scalar (None, a number, a boolean). */
  datatype Value = Str(s: string) | Dict(entries: map<string, Value>) | List(items: seq<Value>) | Scalar

  datatype PyError = TypeError | KeyError

  /** Python's `key in container` for a str key. */
  function Member(key: string, container: Value): (r: Result<bool, PyError>)
    ensures r.Failure? <==> container.Scalar?
    ensures r.Failure? ==> r.error == TypeError
    ensures container.Dict? ==> r == Success(key in container.entries)
    ensures container.List? ==> r == Success(Str(key) in container.items)
    ensures container.Str? ==> r == Success(exists i :: OccursAt(container.s, key, i))
  {
    match container
    case Dict(m) => Success(key in m)
    case Str(s) => Success(Contains(s, key))
    case List(xs) => Success(Str(key) in xs)
    case Scalar => Failure(TypeError)
  }

  /** Python's `container[key]` for a str key. */
  function Index(container: Value, key: string): (r: Result<Value, PyError>)
    ensures r.Success? <==> container.Dict? && key in container.entries
    ensures r.Success? ==> Path(container, [key]) == Some(r.value)
    ensures r.Failure? ==> r.error == if container.Dict? then KeyError else TypeError
  {
    assert [key][1..] == [];
    match container
    case Dict(m) => if key in m then Success(m[key]) else Failure(KeyError)
    case _ => Failure(TypeError)
  }

  /** The value reached by following `keys` through nested dicts, if every step exists. */
  function Path(v: Value, keys: seq<string>): Option<Value>
    decreases |keys|
  {
    if keys == [] then Some(v)
    else if v.Dict? && keys[0] in v.entries then Path(v.entries[keys[0]], keys[1..])
    else None
  }

  function LabelPath(key: string): seq<string>
  {
    ["metadata", "labels", key]
  }

  /**
   * `_is_api_server`: the step-by-step checks of the source. A value that
   * is not a dict gives false; a `true` answer means both labels sit at
   * `metadata.labels` with the control-plane values.
   */
  function IsApiServer(service: Value): (r: Result<bool, PyError>)
    ensures !service.Dict? ==> r == Success(false)
    ensures r == Success(true) ==>
      Path(service, LabelPath("component")) == Some(Str("apiserver")) &&
      Path(service, LabelPath("provider")) == Some(Str("kubernetes"))
  {
    if !service.Dict? then Success(false)
    else if "metadata" !in service.entries then Success(false)
    else
      var metadata := service.entries["metadata"];
      var hasLabels :- Member("labels", metadata);
      if !hasLabels then Success(false)
      else
        var labels :- Index(metadata, "labels");
        var hasComponent :- Member("component", labels);
        if !hasComponent then Success(false)
        else
          // `labels` already answered `in`, so this one cannot raise
          var hasProvider := Member("provider", labels).value;
          if !hasProvider then Success(false)
          else
            var component :- Index(labels, "component");
            if component != Str("apiserver") then Success(false)
            else
              // `labels` is a dict holding "provider", so this cannot raise
              var provider := Index(labels, "provider").value;
              Success(provider == Str("kubernetes"))
  }

  /** `metadata` and `metadata.labels`, where present, are dicts (as in every API response). */
  ghost predicate Shaped(v: Value)
  {
    (Path(v, ["metadata"]).Some? ==> Path(v, ["metadata"]).value.Dict?) &&
    (Path(v, ["metadata", "labels"]).Some? ==> Path(v, ["metadata", "labels"]).value.Dict?)
  }

  /**
   * On dict-shaped input `_is_api_server` never raises and is true iff
   * `metadata.labels.component` is "apiserver" and
   * `metadata.labels.provider` is "kubernetes".
   */
  lemma ApiServerIff(v: Value)
    requires Shaped(v)
    ensures IsApiServer(v) ==
      Success(Path(v, LabelPath("component")) == Some(Str("apiserver")) &&
              Path(v, LabelPath("provider")) == Some(Str("kubernetes")))
  {
    if v.Dict? && "metadata" in v.entries {
      var metadata := v.entries["metadata"];
      assert Path(v, ["metadata"]) == Some(metadata) by {
        assert ["metadata"][1..] == [];
      }
      if "labels" in metadata.entries {
        var labels := metadata.entries["labels"];
        assert Path(v, ["metadata", "labels"]) == Some(labels) by {
          assert ["metadata", "labels"][1..] == ["labels"];
          assert ["labels"][1..] == [];
        }
        forall key
          ensures Path(v, LabelPath(key)) == if key in labels.entries then Some(labels.entries[key]) else None
        {
          assert LabelPath(key)[1..] == ["labels", key];
          assert ["labels", key][1..] == [key];
          assert [key][1..] == [];
          assert Path(v, LabelPath(key)) == Path(metadata, ["labels", key]);
          assert Path(metadata, ["labels", key]) == Path(labels, [key]);
          assert labels.Dict?;
          if key in labels.entries {
            assert Path(labels, [key]) == Path(labels.entries[key], []);
          }
        }
      } else {
        forall key ensures Path(v, LabelPath(key)) == None {
          assert LabelPath(key)[1..] == ["labels", key];
        }
      }
    }
  }

  /** `_is_api_server` does raise when `metadata` is null: `'labels' in None` is a TypeError. */
  lemma ApiServerRaisesOnNullMetadata()
    ensures IsApiServer(Dict(map["metadata" := Scalar])) == Failure(TypeError)
  {
  }

  /** A resource as the drains see it: its name, its labels (none when the record carries no `labels` key) and its `type`, if any. */
  datatype Record = Record(name: string, labels: Option<map<string, string>>, secretType: Option<string>)

  predicate HasLabel(r: Record, key: string, value: string)
  {
    r.labels.Some? && key in r.labels.value && r.labels.value[key] == value
  }

  /** The record as the API hands it over: `{"metadata": {"name": …, "labels": {…}}, "type": …}`. */
  function AsValue(r: Record): (v: Value)
    ensures Shaped(v)
    ensures Path(v, ["metadata", "name"]) == Some(Str(r.name))
  {
    var labels := if r.labels.Some?
      then map["labels" := Dict(map k | k in r.labels.value :: Str(r.labels.value[k]))]
      else map[];
    var metadata := Dict(map["name" := Str(r.name)] + labels);
    var secretType := if r.secretType.Some? then map["type" := Str(r.secretType.value)] else map[];
    var v := Dict(map["metadata" := metadata] + secretType);
    assert ["metadata"][1..] == [] && ["metadata", "name"][1..] == ["name"] && ["name"][1..] == [];
    assert ["metadata", "labels"][1..] == ["labels"] && ["labels"][1..] == [];
    v
  }

  /** On a record, `_is_api_server` answers exactly "labelled component=apiserver and provider=kubernetes". */
  lemma ApiServerOnRecords(r: Record)
    ensures IsApiServer(AsValue(r)) ==
      Success(HasLabel(r, "component", "apiserver") && HasLabel(r, "provider", "kubernetes"))
  {
    ApiServerIff(AsValue(r));
  }

  const TokenMarker: string := "service-account-token"

  /** `'service-account-token' in obj.model.model['type']`, negated in the source to decide deletion. */
  function IsTokenSecret(secret: Value): (r: Result<bool, PyError>)
    ensures Path(secret, ["type"]).None? ==> r.Failure?
    ensures r.Success? ==> Path(secret, ["type"]).Some?
    ensures Path(secret, ["type"]).Some? && Path(secret, ["type"]).value.Str? ==>
      r == Success(exists i :: OccursAt(Path(secret, ["type"]).value.s, TokenMarker, i))
  {
    var secretType :- Index(secret, "type");
    Member(TokenMarker, secretType)
  }

  /**
   * On a record: a missing `type` is a KeyError; otherwise the secret is a
   * token iff "service-account-token" occurs somewhere in its type.
   */
  lemma TokenSecretOnRecords(r: Record)
    ensures r.secretType.None? ==> IsTokenSecret(AsValue(r)) == Failure(KeyError)
    ensures r.secretType.Some? ==>
      IsTokenSecret(AsValue(r)) == Success(exists i :: OccursAt(r.secretType.value, TokenMarker, i))
  {
  }

  datatype Kind = Pod | ReplicationController | Secret | Service | Deployment

  /**
   * The listing size at or below which a drain stops: one for the kinds
   * whose policy can protect a record, zero for the others.
   */
  function Threshold(kind: Kind): (t: nat)
    ensures t <= 1
    ensures t == 1 <==> exists x :: Fate(kind, x) == Keep
  {
    match kind
    case Secret =>
      var token := Record("", None, Some(TokenMarker));
      TokenSecretOnRecords(token);
      assert OccursAt(TokenMarker, TokenMarker, 0);
      assert Fate(Secret, token) == Keep;
      1
    case Service =>
      var apiServer := Record("", Some(map["component" := "apiserver", "provider" := "kubernetes"]), None);
      ApiServerOnRecords(apiServer);
      assert Fate(Service, apiServer) == Keep;
      1
    case _ => 0
  }

  datatype Verdict = Remove | Keep | Fatal(error: PyError)

  /**
   * What a drain does with a listed entry after re-fetching it: secrets are
   * judged on the fetched object's type, services on the listing entry.
   */
  function Decide(kind: Kind, entry: Record, fetched: Record): (v: Verdict)
    ensures kind != Secret && kind != Service ==> v == Remove
    ensures kind == Secret ==>
      (v == Keep <==> fetched.secretType.Some? && exists i :: OccursAt(fetched.secretType.value, TokenMarker, i))
    ensures kind == Secret ==> (v.Fatal? <==> fetched.secretType.None?) && (v.Fatal? ==> v.error == KeyError)
    ensures kind == Service ==>
      v == if HasLabel(entry, "component", "apiserver") && HasLabel(entry, "provider", "kubernetes") then Keep else Remove
  {
    TokenSecretOnRecords(fetched);
    ApiServerOnRecords(entry);
    match kind
    case Secret =>
      (match IsTokenSecret(AsValue(fetched))
       case Success(token) => if token then Keep else Remove
       case Failure(e) => Fatal(e))
    case Service =>
      (match IsApiServer(AsValue(entry))
       case Success(apiServer) => if apiServer then Keep else Remove
       case Failure(e) => Fatal(e))
    case _ => Remove
  }

  /** The rule the drain of `kind` applies to a listing entry and its re-fetched object. */
  function RuleOf(kind: Kind): (Record, Record) -> Verdict
  {
    (entry, fetched) => Decide(kind, entry, fetched)
  }

  /** The verdict on a record whose listing entry and re-fetched object agree. */
  function Fate(kind: Kind, r: Record): Verdict
  {
    Decide(kind, r, r)
  }

  /**
   * The protection table: pods, RCs and deployments are always deleted;
   * secrets are kept iff their type names a service-account token (and
   * abort the drain when they have no type); services are kept iff they are
   * the control plane's own.
   */
  lemma PolicyTable(kind: Kind, r: Record)
    ensures Fate(kind, r) == Keep <==>
      (kind == Secret && r.secretType.Some? && exists i :: OccursAt(r.secretType.value, TokenMarker, i)) ||
      (kind == Service && HasLabel(r, "component", "apiserver") && HasLabel(r, "provider", "kubernetes"))
    ensures Fate(kind, r).Fatal? <==> kind == Secret && r.secretType.None?
  {
    TokenSecretOnRecords(r);
    ApiServerOnRecords(r);
  }
}
