# kube:patch request derivation, in Dafny

This project models the `kube:patch` scaffolder action of
backstage-k8s-scaffolder-actions. The model covers the part of `kubePatch`
that has logic of its own. It takes the untyped patch data a template passes
in. It then either rejects the data or derives the coordinates, body and
content type of the one Kubernetes PATCH call. The coordinates are group,
version, namespace, plural and name.

- `wrappers.dfy`: `Option` stands for JavaScript's `undefined`, and `Result` stands for a value or what is thrown.
- `json.dfy`: `Json.Value` stands for the untyped values a template can hold, such as the operations of a JSON patch or a `spec`.
- `strings.dfy`: `Split` and `Join` model `String.prototype.split` and `Array.prototype.join` on a one-character separator. `Lower` models `toLowerCase` on ASCII letters. The lemmas prove that `Split` and `Join` invert each other.
- `patch.dfy`: the patch data (`PatchData`, `Metadata`) and the request (`PatchRequest`, `Body`, `ContentType`).
  - `BuildRequest` covers validation, the apiVersion split, the plural and the choice of mode, body and content type.
  - `KubePatch` covers the effects of the whole function. The loaded cluster configuration and the server's answer are parameters. Its result is the list of outward steps taken (`LoadConfig`, `PatchCall`) and what is returned or thrown.

The apiVersion split follows the code. The code destructures `apiVersion.split("/")` into `[group, version]`. So the version is the piece between the first and the second slash. It is not everything after the first slash: `"a/b/c"` gives group `"a"` and version `"b"` (`Patch.ApiVersionThirdPieceDropped`). A description that calls "the right side of the first slash" the version agrees with this only when there is exactly one slash (`Patch.ApiVersionOneSlash`).

The plural is modelled literally as the lower-cased kind plus `"s"`. Irregular plurals are not corrected: `Ingress` gives `ingresss`.

## Model

| member | source | states |
|---|---|---|
| `Strings.IndexOf` | src/lib/patch.ts:27-28 | the index returned holds the separator and no earlier index does (the first occurrence, which `includes` tests for and `split` cuts at) |
| `Strings.Split` | src/lib/patch.ts:28 | `split` yields one more piece than there are separators, and no piece contains the separator |
| `Strings.JoinSplit` | src/lib/patch.ts:28 | joining the pieces of a split with the separator gives back the original string |
| `Strings.SplitJoin` | src/lib/patch.ts:28 | splitting the join of separator-free pieces gives back exactly those pieces |
| `Strings.LowerIsLower` | src/lib/patch.ts:31 | lower-cased text holds no ASCII capital, and lower-casing it again changes nothing |
| `Patch.ValidationRejects` | src/lib/patch.ts:8-16 | the request is refused if and only if the patch data is null or one of apiVersion, kind, metadata.name, metadata.namespace is absent or empty; the refusal always carries the fixed message |
| `Patch.ApiVersionWithoutSlash` | src/lib/patch.ts:27-29 | an apiVersion without a slash gives the core group "" and the whole apiVersion as the version |
| `Patch.ApiVersionWithSlash` | src/lib/patch.ts:27-28 | with a slash, the group is the text before the first slash, and the version is the text after it up to the next slash or the end |
| `Patch.ApiVersionOneSlash` | src/lib/patch.ts:27-28 | with exactly one slash, group + "/" + version is the apiVersion |
| `Patch.ApiVersionRoundTrip` | src/lib/patch.ts:27-29 | splitting an apiVersion written as "group/version" (or as "version" for the core group) gives back that group and version |
| `Patch.ApiVersionExamples` | src/lib/patch.ts:27-29 | "apps/v1" splits to ("apps", "v1"), and "v1" splits to ("", "v1") |
| `Patch.ApiVersionThirdPieceDropped` | src/lib/patch.ts:27-28 | "a/b/c" splits to ("a", "b"): a third piece is dropped |
| `Patch.PluralShape` | src/lib/patch.ts:31 | the plural is the lower-cased kind followed by one 's'; it is one character longer than the kind and has no ASCII capital; kinds that differ only in case have the same plural |
| `Patch.PluralExamples` | src/lib/patch.ts:31 | Deployment gives deployments, Pod gives pods, and Ingress gives ingresss (not corrected) |
| `Patch.RequestCoordinates` | src/lib/patch.ts:8-43 | valid patch data always yields a request; its name and namespace are metadata's, unchanged; group and version come from the apiVersion split; the plural comes from the kind |
| `Patch.RequestMode` | src/lib/patch.ts:22-36 | JSON-patch mode holds exactly when `patch` is an array, and the body is then that array's elements unchanged; otherwise the body is the whole patch data unchanged; the content type is json-patch exactly in JSON-patch mode and merge-patch exactly in merge mode |
| `Patch.MediaTypesDistinct` | src/lib/patch.ts:34-36 | the two Content-Type values differ |
| `Patch.CoordinatesIgnorePayload` | src/lib/patch.ts:8-36 | `patch` and the other payload properties play no part in validation or in the coordinates; changing them changes at most the body and the content type |
| `Patch.InvalidInputHasNoEffects` | src/lib/patch.ts:12-20 | invalid patch data throws the validation error before the configuration is loaded and before any call is made |
| `Patch.AtMostOneCall` | src/lib/patch.ts:18-49 | at most one PATCH call is made; it happens only for valid patch data, only after the configuration loaded, and it carries the derived request |
| `Patch.ResponsePassedThrough` | src/lib/patch.ts:38-56 | for valid patch data and a loaded configuration, the server's response body is returned unchanged, and its error is rethrown unchanged |
| `Patch.MergePatchExample` | src/lib/patch.ts:8-36 | an apps/v1 Deployment with a spec gives group apps, version v1, plural deployments, a merge body equal to the whole input, and the merge-patch type |
| `Patch.JsonPatchExample` | src/lib/patch.ts:8-36 | a v1 Pod with a one-operation `patch` array gives group "", version v1, plural pods, that operation as the body, and the json-patch type |

## Left out

- Creating the Kubernetes client and making the call are not modelled (`KubeConfig`, `loadFromDefault`, `makeApiClient`, `patchNamespacedCustomObject`). They are a foreign library and network I/O. `KubePatch` stands for them with two parameters: what loading the configuration throws, if anything, and the server's answer to a request.
- The source loads the configuration before it derives the request. The model derives the request first. The derivation is pure, so the order is only visible through a `TypeError`, and those are left out (see below).
- Logging is not modelled (`logger.info`, `logger.error`), and neither is the message text built with `JSON.stringify(err.body)`. These are side effects and a foreign serialiser. The error itself is rethrown unchanged, and that is modelled.
- The fields are modelled as strings or absent. A truthy non-string `apiVersion` or `kind` would make `includes` or `toLowerCase` throw a `TypeError`. That path is not modelled. Patch data that is falsy but not null (0, "", false) reads as null, the same as in the source.
- `Lower` maps only ASCII 'A'..'Z' to 'a'..'z'. It does not model the full Unicode case mapping of `toLowerCase`.
- Numbers in `Json.Value` are integers. Floating point is not modelled.
- Applying a JSON Patch (RFC 6902) or a JSON Merge Patch (RFC 7396) is not modelled. The server does that.
- src/actions/patch.ts is not part of this model. It registers the action and its schema. It builds log text with the fallbacks "UnknownKind", "default" and "unknown". It hands the input to `kubePatch` and rethrows any failure. It adds nothing to the request.
