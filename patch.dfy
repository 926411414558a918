/**
 * `kubePatch` (src/lib/patch.ts): from the patch data of a `kube:patch`
 * step, derive the coordinates, body and content type of the one
 * Kubernetes PATCH call, or reject the data before anything is loaded or
 * sent. The Kubernetes client itself is represented by its effects only:
 * loading the cluster configuration and issuing the call.
 */
module Patch {
  import opened Wrappers
  import opened Strings
  import Json

  /** `metadata` of the patch data; `None` fields are `undefined`. */
  datatype Metadata = Metadata(
    name: Option<string>,
    namespace: Option<string>,
    others: seq<(string, Json.Value)>)

  /**
   * The patch data object. Only the four identifying fields and `patch`
   * are read; every other top-level property (a `spec`, say) is in
   * `others` and travels with the object into a merge patch.
   */
  datatype PatchData = PatchData(
    apiVersion: Option<string>,
    kind: Option<string>,
    metadata: Option<Metadata>,
    patch: Option<Json.Value>,
    others: seq<(string, Json.Value)>)

  /** What is sent: the whole patch data, or the operations of a JSON patch. */
  datatype Body = Merge(data: PatchData) | JsonPatch(ops: seq<Json.Value>)

  datatype ContentType = MergePatchContent | JsonPatchContent
  {
    /** The `Content-Type` header value (RFC 7396 section 4, RFC 6902 section 6). */
    function MediaType(): string
    {
      match this
      case MergePatchContent => "application/merge-patch+json"
      case JsonPatchContent => "application/json-patch+json"
    }
  }

  /** The arguments of `patchNamespacedCustomObject` that the call depends on. */
  datatype PatchRequest = PatchRequest(
    group: string,
    version: string,
    namespace: string,
    plural: string,
    name: string,
    body: Body,
    contentType: ContentType)

  datatype ValidationError = ValidationError(message: string)

  const MissingFieldsMessage: string :=
    "patchData must include apiVersion, kind, metadata.name, and metadata.namespace"

  /** `patchData || {}`: null or undefined patch data reads as an empty object. */
  function Fields(patchData: Option<PatchData>): PatchData
  {
    if patchData.Some? then patchData.value else PatchData(None, None, None, None, [])
  }

  function NameOf(metadata: Option<Metadata>): Option<string>
  {
    if metadata.Some? then metadata.value.name else None
  }

  function NamespaceOf(metadata: Option<Metadata>): Option<string>
  {
    if metadata.Some? then metadata.value.namespace else None
  }

  /** JavaScript truthiness of a string field: present and non-empty. */
  predicate Truthy(field: Option<string>)
  {
    field.Some? && field.value != ""
  }

  /** The condition under which `kubePatch` does not throw its validation error. */
  predicate HasIdentity(patchData: Option<PatchData>)
  {
    patchData.Some?
    && Truthy(patchData.value.apiVersion)
    && Truthy(patchData.value.kind)
    && patchData.value.metadata.Some?
    && Truthy(patchData.value.metadata.value.name)
    && Truthy(patchData.value.metadata.value.namespace)
  }

  /** `Array.isArray(patchData.patch)` */
  predicate IsJsonPatch(data: PatchData)
  {
    data.patch.Some? && data.patch.value.Array?
  }

  /**
   * `const [group, version] = apiVersion.includes("/") ? apiVersion.split("/") : ["", apiVersion]`:
   * the first and second pieces of the split, so a third piece is dropped.
   */
  function GroupVersion(apiVersion: string): (string, string)
  {
    if '/' in apiVersion then
      var parts := Split(apiVersion, '/');
      assert multiset(apiVersion)['/'] > 0;
      (parts[0], parts[1])
    else ("", apiVersion)
  }

  /** The `apiVersion` Kubernetes writes for a group and version; the core group is "". */
  function FormatApiVersion(group: string, version: string): string
  {
    if group == "" then version else group + "/" + version
  }

  /** `${kind.toLowerCase()}s`, with no special case for irregular plurals. */
  function Plural(kind: string): string
  {
    Lower(kind) + "s"
  }

  /** The pure part of `kubePatch`: validation, then the request it would send. */
  function BuildRequest(patchData: Option<PatchData>): Result<PatchRequest, ValidationError>
  {
    var data := Fields(patchData);
    var name := NameOf(data.metadata);
    var namespace := NamespaceOf(data.metadata);
    if !Truthy(data.apiVersion) || !Truthy(data.kind) || !Truthy(name) || !Truthy(namespace) then
      Failure(ValidationError(MissingFieldsMessage))
    else
      var isJsonPatch := IsJsonPatch(data);
      var (group, version) := GroupVersion(data.apiVersion.value);
      var body := if isJsonPatch then JsonPatch(data.patch.value.items) else Merge(data);
      var contentType := if isJsonPatch then JsonPatchContent else MergePatchContent;
      Success(PatchRequest(group, version, namespace.value, Plural(data.kind.value), name.value, body, contentType))
  }

  // ---------------------------------------------------------------------
  // Validation

  /** The request is refused exactly when one of the four identifying fields is missing or empty, always with the same message. */
  lemma ValidationRejects(patchData: Option<PatchData>)
    ensures BuildRequest(patchData).Failure? <==> !HasIdentity(patchData)
    ensures BuildRequest(patchData).Failure? ==>
              BuildRequest(patchData).error == ValidationError(MissingFieldsMessage)
  {
  }

  // ---------------------------------------------------------------------
  // apiVersion split

  /** Without a slash the group is the core group "" and the version is the whole apiVersion. */
  lemma ApiVersionWithoutSlash(apiVersion: string)
    requires '/' !in apiVersion
    ensures GroupVersion(apiVersion) == ("", apiVersion)
  {
  }

  /**
   * With a slash the group is the text before the first slash and the
   * version is the text after it up to the next slash or the end.
   */
  lemma ApiVersionWithSlash(apiVersion: string)
    requires '/' in apiVersion
    ensures var i := IndexOf(apiVersion, '/');
            var rest := apiVersion[i + 1..];
            var (group, version) := GroupVersion(apiVersion);
            group == apiVersion[..i]
            && version <= rest
            && '/' !in version
            && (version == rest || rest[|version|] == '/')
  {
    var i := IndexOf(apiVersion, '/');
    var rest := apiVersion[i + 1..];
    assert Split(apiVersion, '/') == [apiVersion[..i]] + Split(rest, '/');
    if '/' in rest {
      var j := IndexOf(rest, '/');
      assert Split(rest, '/')[0] == rest[..j];
    }
  }

  /** With exactly one slash the split loses nothing: group + "/" + version is the apiVersion. */
  lemma ApiVersionOneSlash(apiVersion: string)
    requires multiset(apiVersion)['/'] == 1
    ensures GroupVersion(apiVersion).0 + "/" + GroupVersion(apiVersion).1 == apiVersion
  {
    assert apiVersion[IndexOf(apiVersion, '/')] == '/';
    var parts := Split(apiVersion, '/');
    JoinSplit(apiVersion, '/');
    assert Join(parts, '/') == parts[0] + ['/'] + Join(parts[1..], '/');
  }

  /** Splitting a well-formed apiVersion gives back the group and version it was written from. */
  lemma {:induction false} ApiVersionRoundTrip(group: string, version: string)
    requires '/' !in group && '/' !in version
    ensures GroupVersion(FormatApiVersion(group, version)) == (group, version)
  {
    if group != "" {
      var parts := [group, version];
      assert Join(parts, '/') == group + "/" + version by {
        assert parts[1..] == [version];
      }
      SplitJoin(parts, '/');
      assert (group + "/" + version)[|group|] == '/';
    }
  }

  // ---------------------------------------------------------------------
  // Plural

  /**
   * The plural is the lower-cased kind with one 's' appended: one longer
   * than the kind, ending in 's', with no upper-case letter, and the same
   * for kinds that differ only in case.
   */
  lemma PluralShape(kind: string)
    ensures |Plural(kind)| == |kind| + 1
    ensures Plural(kind)[..|kind|] == Lower(kind)
    ensures Plural(kind)[|kind|] == 's'
    ensures forall i :: 0 <= i < |Plural(kind)| ==> !IsUpper(Plural(kind)[i])
    ensures Plural(Lower(kind)) == Plural(kind)
  {
  }

  // ---------------------------------------------------------------------
  // The request

  /** Name and namespace reach the request unchanged; group, version and plural come from apiVersion and kind. */
  lemma RequestCoordinates(patchData: Option<PatchData>)
    requires HasIdentity(patchData)
    ensures var data := patchData.value;
            var r := BuildRequest(patchData);
            r.Success?
            && r.value.name == data.metadata.value.name.value
            && r.value.namespace == data.metadata.value.namespace.value
            && (r.value.group, r.value.version) == GroupVersion(data.apiVersion.value)
            && r.value.plural == Plural(data.kind.value)
  {
  }

  /**
   * Exactly one mode per call, chosen by whether `patch` is an array: the
   * JSON-patch body is that array's elements unchanged, the merge body is
   * the whole patch data unchanged, and the content type follows the body.
   */
  lemma RequestMode(patchData: Option<PatchData>)
    requires HasIdentity(patchData)
    ensures var data := patchData.value;
            var r := BuildRequest(patchData).value;
            (r.body.JsonPatch? <==> IsJsonPatch(data))
            && (r.contentType == JsonPatchContent <==> r.body.JsonPatch?)
            && (r.contentType == MergePatchContent <==> r.body.Merge?)
            && (r.body.JsonPatch? ==> Json.Array(r.body.ops) == data.patch.value)
            && (r.body.Merge? ==> r.body.data == data)
  {
  }

  /** The two media types differ, so the header alone tells the server which mode is meant. */
  lemma MediaTypesDistinct()
    ensures MergePatchContent.MediaType() != JsonPatchContent.MediaType()
  {
    assert MergePatchContent.MediaType()[12] != JsonPatchContent.MediaType()[12];
  }

  /**
   * Neither `patch` nor any other payload property takes part in
   * validation or in the coordinates: changing them changes at most the
   * body and the content type.
   */
  lemma CoordinatesIgnorePayload(data: PatchData, patch: Option<Json.Value>, others: seq<(string, Json.Value)>)
    ensures var r := BuildRequest(Some(data));
            var r' := BuildRequest(Some(data.(patch := patch, others := others)));
            r.Success? == r'.Success?
            && (r.Success? ==>
                  r.value.(body := r'.value.body, contentType := r'.value.contentType) == r'.value)
  {
  }

  // ---------------------------------------------------------------------
  // The call

  /** The outward steps `kubePatch` takes: loading the cluster configuration, then the PATCH call. */
  datatype Step = LoadConfig | PatchCall(request: PatchRequest)

  /** What `kubePatch` throws; configuration and server errors are passed through unchanged. */
  datatype Thrown =
    | Invalid(error: ValidationError)
    | ConfigFailure(cause: Json.Value)
    | RemoteFailure(cause: Json.Value)

  datatype Outcome = Returned(body: Json.Value) | Threw(thrown: Thrown)

  datatype Run = Run(steps: seq<Step>, outcome: Outcome)

  /**
   * `kubePatch` with its environment made explicit: `configError` is what
   * loading the default configuration throws, if anything, and `server`
   * answers a PATCH request with the response body or the error it throws.
   */
  function KubePatch(
    patchData: Option<PatchData>,
    configError: Option<Json.Value>,
    server: PatchRequest -> Result<Json.Value, Json.Value>): Run
  {
    match BuildRequest(patchData)
    case Failure(e) => Run([], Threw(Invalid(e)))
    case Success(request) =>
      if configError.Some? then Run([LoadConfig], Threw(ConfigFailure(configError.value)))
      else
        match server(request)
        case Success(body) => Run([LoadConfig, PatchCall(request)], Returned(body))
        case Failure(err) => Run([LoadConfig, PatchCall(request)], Threw(RemoteFailure(err)))
  }

  /** Invalid patch data is refused before the configuration is loaded or any call is made. */
  lemma InvalidInputHasNoEffects(
    patchData: Option<PatchData>,
    configError: Option<Json.Value>,
    server: PatchRequest -> Result<Json.Value, Json.Value>)
    requires !HasIdentity(patchData)
    ensures KubePatch(patchData, configError, server)
            == Run([], Threw(Invalid(ValidationError(MissingFieldsMessage))))
  {
    ValidationRejects(patchData);
  }

  /**
   * At most one PATCH call is made, only for valid patch data and only
   * after the configuration loaded, and it carries the derived request.
   */
  lemma AtMostOneCall(
    patchData: Option<PatchData>,
    configError: Option<Json.Value>,
    server: PatchRequest -> Result<Json.Value, Json.Value>)
    ensures var run := KubePatch(patchData, configError, server);
            forall k :: 0 <= k < |run.steps| && run.steps[k].PatchCall? ==>
              k == 1 && run.steps[0] == LoadConfig
              && HasIdentity(patchData) && configError.None?
              && run.steps == [LoadConfig, PatchCall(BuildRequest(patchData).value)]
  {
    ValidationRejects(patchData);
  }

  /** The server's response body is returned unchanged, and its error is rethrown unchanged. */
  lemma ResponsePassedThrough(
    patchData: Option<PatchData>,
    server: PatchRequest -> Result<Json.Value, Json.Value>)
    requires HasIdentity(patchData)
    ensures var request := BuildRequest(patchData).value;
            var run := KubePatch(patchData, None, server);
            run.steps == [LoadConfig, PatchCall(request)]
            && (server(request).Success? ==> run.outcome == Returned(server(request).value))
            && (server(request).Failure? ==> run.outcome == Threw(RemoteFailure(server(request).error)))
  {
    ValidationRejects(patchData);
  }

  // ---------------------------------------------------------------------
  // Worked examples

  /** A merge patch of a Deployment in group "apps". */
  lemma MergePatchExample()
    ensures var data := PatchData(
              Some("apps/v1"), Some("Deployment"),
              Some(Metadata(Some("web"), Some("ns1"), [])),
              None,
              [("spec", Json.Object([("replicas", Json.Number(3))]))]);
            BuildRequest(Some(data))
            == Success(PatchRequest("apps", "v1", "ns1", "deployments", "web", Merge(data), MergePatchContent))
  {
    var data := PatchData(
      Some("apps/v1"), Some("Deployment"),
      Some(Metadata(Some("web"), Some("ns1"), [])),
      None,
      [("spec", Json.Object([("replicas", Json.Number(3))]))]);
    assert HasIdentity(Some(data));
    RequestCoordinates(Some(data));
    RequestMode(Some(data));
    ApiVersionExamples();
    PluralExamples();
  }

  /** A JSON patch of a Pod in the core group. */
  lemma JsonPatchExample()
    ensures var op := Json.Object([
              ("op", Json.Str("replace")),
              ("path", Json.Str("/metadata/labels/env")),
              ("value", Json.Str("prod"))]);
            var data := PatchData(
              Some("v1"), Some("Pod"),
              Some(Metadata(Some("p1"), Some("ns2"), [])),
              Some(Json.Array([op])),
              []);
            BuildRequest(Some(data))
            == Success(PatchRequest("", "v1", "ns2", "pods", "p1", JsonPatch([op]), JsonPatchContent))
  {
    var op := Json.Object([
      ("op", Json.Str("replace")),
      ("path", Json.Str("/metadata/labels/env")),
      ("value", Json.Str("prod"))]);
    var data := PatchData(
      Some("v1"), Some("Pod"),
      Some(Metadata(Some("p1"), Some("ns2"), [])),
      Some(Json.Array([op])),
      []);
    assert HasIdentity(Some(data));
    RequestCoordinates(Some(data));
    RequestMode(Some(data));
    ApiVersionExamples();
    PluralExamples();
  }

  /** "apps/v1" names group "apps" and "v1" the core group. */
  lemma ApiVersionExamples()
    ensures GroupVersion("apps/v1") == ("apps", "v1")
    ensures GroupVersion("v1") == ("", "v1")
  {
    assert FormatApiVersion("apps", "v1") == "apps/v1";
    ApiVersionRoundTrip("apps", "v1");
  }

  /** A third piece of the apiVersion is dropped, not kept in the version. */
  lemma ApiVersionThirdPieceDropped()
    ensures GroupVersion("a/b/c") == ("a", "b")
  {
    var s := "a/b/c";
    assert s[..1] == "a";
    IndexOfUnique(s, '/', 1);
    ApiVersionWithSlash(s);
    var version := GroupVersion(s).1;
    assert s[2..] == "b/c";
    assert version != "b/c";
    assert |version| == 1;
    assert version == "b/c"[..1] == "b";
  }

  /** Regular kinds get their plural; an irregular one is not corrected. */
  lemma PluralExamples()
    ensures Plural("Deployment") == "deployments"
    ensures Plural("Pod") == "pods"
    ensures Plural("Ingress") == "ingresss"
  {
  }
}
