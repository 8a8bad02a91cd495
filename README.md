# istio-pilot `ResourceHandler`, modelled in Dafny

The istio-pilot charm uses `ResourceHandler` (`charms/istio-pilot/src/resources_handler.py`) to keep Kubernetes objects in step with the manifests it renders. This project models that class over an abstract lightkube client.

**The cluster.** `Cluster.Client` stands in for the lightkube client and holds:
- a store of objects keyed by kind, namespace and name;
- the per-object refusals of the API server, such as an RBAC denial or a conflict;
- a ghost log of every `list`, `delete` and `apply` request issued.

A delete of a missing object fails with a 404 whose message contains `not found` (`Cluster.NotFound`). The message is simplified to `<kind>s "<name>" not found`: the real one names the resource's plural, with its API group for non-core kinds, and irregular plurals are not the kind plus "s". The handler relies only on the `not found` part.

A `list` or `delete` without `namespace` goes to the client's default namespace. That default is the model name (`Client(namespace=model_name)`). An `apply` without `namespace` uses the object's own namespace first, and the default only when the object has none (`Cluster.ApplyKey`).

Every object the client stores or lists carries the metadata the API server fills in (resourceVersion, uid, managedFields, status). A document parsed from a manifest does not. The model reduces this metadata to one flag, `Obj.serverFields`, which takes part in whole-object equality.

**The handler.** `Handler.ResourceHandler` models the handler's operations as methods:
- `delete_object` is a guarded delete. The guard itself is the pure decision `Guard.Classify`. It swallows a failed delete only when the status message contains `not found` and `ignore_not_found` is set, or contains `(Unauthorized)` and `ignore_unauthorized` is set. The not-found test comes first. A `None` message is always re-raised.
- `apply_manifest` and `delete_manifest` are loops over the parsed documents.
- `delete_existing_resource_objects` is the teardown.
- `reconcile_desired_resources` is the reconciler.

Each loop is proved against a fold over the documents:
- `HandlerSpec.ApplyAll` for the applies;
- `HandlerSpec.DeleteAll` for the deletes, which stops at the first error that escapes the guard.

The requests each loop sends are the functions `HandlerSpec.DeleteLog` and `HandlerSpec.ApplyLog` of its inputs. A delete loop sends one delete per document, in order, up to and including the first whose error escapes. An apply loop sends one apply per document, up to and including the first refused one. The reconciler with a non-empty manifest sends its list request, then the stale deletes, then the applies. When a delete fails, it sends no apply at all. lightkube's `list` returns a lazy iterator. The reconciler's own listing (line 101) is therefore sent only when line 112 iterates it, and the teardown branch never sends it.

**The descriptor.** `Descriptor.CreateNsResource` derives the descriptor for `create_ns_resource` from a rendered manifest:
- the group and version come from `apiVersion.split("/")`;
- the kind is kept unchanged;
- the plural is `(kind + "s").lower()`;
- it raises `KeyError` or `IndexError` in the order in which Python evaluates the keyword arguments.

**Behaviour of the code as written, which the model keeps:**
- `delete_existing_resource_objects` lists with `labels={...}.update(labels)`, and `dict.update` returns `None`. The teardown therefore lists with no label selector. It deletes every object of the kind in the namespace, not only the owned ones.
- The reconciler's stale deletes call `delete_object(obj)` without a namespace, so they go to the default namespace. With a different `namespace` argument, the objects listed there are never deleted there (`HandlerSpec.SweepStaysInNamespace`).
- The reconciler relies on the default flags (`False`), so every failed delete aborts the call.
- The diff is a whole-object set difference. A listed object carries the server's metadata, and a parsed document does not, so no listed object ever equals a document. Every owned object is therefore stale (`HandlerSpec.ListedNeverDesired`).
  - When `namespace` resolves to the model name, every owned object is deleted and re-applied on each reconcile.
  - When it resolves to another namespace, the stale deletes go to the model's namespace under the same kind and name. There the first missing object raises a 404 that ends the reconcile before any apply. An object of that kind and name in the model's namespace, owned or not, is deleted in its place.
- The reconciler calls `self._apply_manifest(...)`, which the class does not define. It is modelled as applying each parsed document, as `apply_manifest` does.

## Model

| member | source | states |
|---|---|---|
| Guard.Classify | charms/istio-pilot/src/resources_handler.py:43-53 | A `None` message is re-raised. The not-found branch is taken iff the message contains "not found" and `ignore_not_found` is set. The unauthorized branch is taken iff the message contains "(Unauthorized)", `ignore_unauthorized` is set and the not-found branch was not taken. The error is re-raised iff neither applies. |
| Guard.Guarded | charms/istio-pilot/src/resources_handler.py:39-53 | What leaves `delete_object` is either nothing or the client's own error. It is nothing exactly when the delete succeeded, or its message contains "not found" with `ignore_not_found` set, or contains "(Unauthorized)" with `ignore_unauthorized` set. |
| Guard.StrictGuardReraisesAll | charms/istio-pilot/src/resources_handler.py:37-53 | With both flags at their default `False`, every failed delete propagates unchanged. |
| Guard.NotFoundTestedFirst | charms/istio-pilot/src/resources_handler.py:44-51 | For every message containing both texts: both flags give not-found; only `ignore_unauthorized` gives unauthorized; only `ignore_not_found` gives not-found; neither flag gives re-raise. |
| Text.Contains | charms/istio-pilot/src/resources_handler.py:44-46 | Python's `sub in s` is true iff `sub` occurs at some position of `s`. |
| Text.Split | charms/istio-pilot/src/resources_handler.py:137-138 | `split("/")` gives at least one part. No part contains the separator. There are at least two parts iff the separator occurs. |
| Text.JoinSplit | charms/istio-pilot/src/resources_handler.py:137-138 | Joining the parts of a split with the separator gives back the string. |
| Text.SplitJoin | charms/istio-pilot/src/resources_handler.py:137-138 | Splitting the join of separator-free parts gives back exactly those parts. |
| Text.Lower | charms/istio-pilot/src/resources_handler.py:140 | `lower()` keeps the length and lowers each character independently. |
| Text.LowerAppend | charms/istio-pilot/src/resources_handler.py:140 | For the modelled ASCII lowering, lowering `a + b` equals lowering `a` and `b` separately and joining them. |
| Descriptor.CreateNsResource | charms/istio-pilot/src/resources_handler.py:134-142 | The errors come in evaluation order: `KeyError("apiVersion")` iff the key is missing; then `IndexError` iff there is no "/"; then `KeyError("kind")`. It succeeds iff `apiVersion` is present and contains "/" and `kind` is present. On success: the group and version are "/"-free; `group/version` is a prefix of `apiVersion`, ending there or at the next "/"; the kind is unchanged; the plural is `lower(kind) + "s"`. |
| Descriptor.DescriptorRoundTrip | charms/istio-pilot/src/resources_handler.py:136-140 | For every "/"-free group and version, `apiVersion = group/version` yields exactly that group, version and kind, with plural `lower(kind) + "s"`. |
| Descriptor.IstioGateway | charms/istio-pilot/src/resources_handler.py:136-140 | `networking.istio.io/v1beta1` with `Gateway` gives group `networking.istio.io`, version `v1beta1` and plural `gateways`. |
| Cluster.NotFound | charms/istio-pilot/src/resources_handler.py:40-44 | The server's answer to a delete of a missing object is a 404 whose message contains "not found", the text the guard tests for. |
| Cluster.Stored | charms/istio-pilot/src/resources_handler.py:77 | The object an apply stores is the applied one, placed in the namespace it was written to and carrying the server's metadata. Its kind, name, labels and other content are kept. |
| Cluster.Enumerate | charms/istio-pilot/src/resources_handler.py:112-113 | Iterating a Python set visits exactly its elements, each once. |
| Cluster.ListedNamesDistinct | charms/istio-pilot/src/resources_handler.py:101-108 | Two objects listed from one kind and namespace under the same name are the same object. |
| Cluster.Client.constructor | charms/istio-pilot/src/resources_handler.py:32 | The client's default namespace is the model name. It starts from the given store and refusals, with an empty request log. |
| Cluster.Client.List | charms/istio-pilot/src/resources_handler.py:101-108 | Returns exactly the objects of the kind in the resolved namespace that match the selector, each once. Logs one list request. |
| Cluster.Client.Delete | charms/istio-pilot/src/resources_handler.py:40 | Deletes the key of (kind, resolved namespace, name). It fails with the refusal, or with not-found when the key is missing; only on success is the key removed. Logs one delete request. |
| Cluster.Client.Apply | charms/istio-pilot/src/resources_handler.py:77 | Writes the object to the namespace argument, else to its own namespace, else to the default namespace. It fails only where refused. Logs one apply request. |
| HandlerSpec.OwnerSelector | charms/istio-pilot/src/resources_handler.py:103-106 | The reconciler's selector picks an object iff it has `app.juju.is/created-by` equal to the app name and the app's workload label equal to "true". |
| HandlerSpec.Stale | charms/istio-pilot/src/resources_handler.py:112 | `set(existing) - set(desired)` holds exactly the listed objects equal to no parsed document. |
| HandlerSpec.ApplyAll | charms/istio-pilot/src/resources_handler.py:76-77 | The fold every apply loop is stated against. It never removes an object, and its error is one of the server's refusals. |
| HandlerSpec.DeleteAll | charms/istio-pilot/src/resources_handler.py:82-88 | The fold every delete loop is stated against (also lines 68-73 and 113-114). It never adds or changes an object, and its error is one the guard re-raises. |
| HandlerSpec.DeleteLog | charms/istio-pilot/src/resources_handler.py:82-88 | The requests a delete loop sends: at most one per document. |
| HandlerSpec.DeleteLogRequests | charms/istio-pilot/src/resources_handler.py:82-88 | The delete loop's requests are the deletes of the documents' targets, in document order. |
| HandlerSpec.DeleteLogComplete | charms/istio-pilot/src/resources_handler.py:82-88 | A delete loop that succeeds sends one delete per document. |
| HandlerSpec.DeleteLogEndsAtFailure | charms/istio-pilot/src/resources_handler.py:82-88 | A delete loop that fails ends its requests with the failing delete. The deletes before it all got through the guard, and the loop's error is that delete's. |
| HandlerSpec.ApplyLog | charms/istio-pilot/src/resources_handler.py:76-77 | The requests an apply loop sends: at most one per document. |
| HandlerSpec.ApplyLogShape | charms/istio-pilot/src/resources_handler.py:76-77 | The apply loop sends the applies of the documents in order, up to and including the first refused one, or all of them when none is refused. |
| HandlerSpec.AppliedPrefix | charms/istio-pilot/src/resources_handler.py:76-77 | Counts the leading documents the server accepts. Every document before the count is accepted; the one at the count, if any, is refused. |
| HandlerSpec.ApplyAllOutcome | charms/istio-pilot/src/resources_handler.py:76-77 | `apply_manifest` writes the accepted leading documents over the store, a later document winning on a shared key. It fails with the first refusal. Whether and how it fails does not depend on the store. |
| HandlerSpec.WrittenFrom | charms/istio-pilot/src/resources_handler.py:76-77 | Every document's key is written. Every written key holds the stored form of a document whose key it is. |
| HandlerSpec.ApplyManifestIdempotent | charms/istio-pilot/src/resources_handler.py:75-77 | Applying a manifest twice in a row, whether or not the first apply failed, leaves the store as the first apply left it and ends with the same outcome. |
| HandlerSpec.DeleteAllSweeps | charms/istio-pilot/src/resources_handler.py:68-73 | For objects with distinct names, the delete loop fails iff one delete is fatal against the starting store, and then with that delete's error. On success, exactly the unrefused targets are gone. On failure, only targets were removed. |
| HandlerSpec.DeleteAllClears | charms/istio-pilot/src/resources_handler.py:82-88 | After a successful `delete_manifest`, each target is gone unless the server refused it, and each such refusal was swallowed. No key was added. |
| HandlerSpec.DeleteAllAgain | charms/istio-pilot/src/resources_handler.py:82-88 | With `ignore_not_found`, deleting documents whose targets are all gone, or refused with a swallowed error, succeeds and leaves the store unchanged. |
| HandlerSpec.DeleteManifestIdempotent | charms/istio-pilot/src/resources_handler.py:79-88 | With `ignore_not_found=True`, repeating a successful `delete_manifest` succeeds and changes nothing. |
| HandlerSpec.StrictDeleteManifestRepeatFails | charms/istio-pilot/src/resources_handler.py:79-88 | With the default flags, repeating a successful `delete_manifest` fails with not-found for its first unrefused document. |
| HandlerSpec.StrictFatal | charms/istio-pilot/src/resources_handler.py:37-53 | With the default flags, a delete is fatal iff the server refuses it or the object is missing. |
| HandlerSpec.TeardownLeavesRefused | charms/istio-pilot/src/resources_handler.py:55-73 | After a successful teardown, the objects of the kind left in the namespace are exactly the listed ones whose deletes were refused. |
| HandlerSpec.StrictTeardownEmpties | charms/istio-pilot/src/resources_handler.py:116-123 | After the reconciler's teardown succeeds (default flags), nothing of the kind is left in the namespace, so a repeat lists and deletes nothing. |
| HandlerSpec.ListedDistinctNames | charms/istio-pilot/src/resources_handler.py:101-108 | Objects listed from one kind in one namespace, each taken once, have distinct names, so their deletes hit distinct keys. |
| HandlerSpec.ReconcileConverges | charms/istio-pilot/src/resources_handler.py:101-115 | Suppose the reconciler lists in the default namespace, every document is of the kind, carries both ownership labels and is written to that namespace, and the deletes and applies succeed. Then the owned objects of the kind are exactly those the manifest writes. |
| HandlerSpec.ListedNeverDesired | charms/istio-pilot/src/resources_handler.py:112 | When no document carries server metadata, the whole-object difference keeps every listed object as stale. |
| HandlerSpec.SweepStaysInNamespace | charms/istio-pilot/src/resources_handler.py:113-114 | A sweep of deletes in one namespace removes nothing stored in any other namespace. |
| Handler.ResourceHandler.constructor | charms/istio-pilot/src/resources_handler.py:19-34 | Records `app_name` and `model_name`. Connects a client whose default namespace is the model name. |
| Handler.ResourceHandler.DeleteObject | charms/istio-pilot/src/resources_handler.py:36-53 | Issues one delete in the resolved namespace. Its result is what the guard lets escape from the server's answer. The store changes only when the delete succeeds. |
| Handler.ResourceHandler.DeleteObjects | charms/istio-pilot/src/resources_handler.py:82-88 | Deletes the objects in order, stopping at the first escaped error. The store and error are those of `DeleteAll`. The requests sent are `DeleteLog` of the same inputs. |
| Handler.ResourceHandler.DeleteExistingResourceObjects | charms/istio-pilot/src/resources_handler.py:55-73 | Lists with no label selector, whatever `labels` is. Deletes each listed object once, in the namespace argument, with the caller's flags, and satisfies the sweep property. Sends the list request, then `DeleteLog` of the listed objects. |
| Handler.ResourceHandler.ApplyManifest | charms/istio-pilot/src/resources_handler.py:75-77 | Applies the documents in order and stops at the first refusal. The store and error are those of `ApplyAll`. The requests sent are `ApplyLog` of the same inputs. |
| Handler.ResourceHandler.DeleteManifest | charms/istio-pilot/src/resources_handler.py:79-88 | Deletes the documents in order through the guard. The store and error are those of `DeleteAll`. The requests sent are `DeleteLog` of the same inputs. |
| Handler.ResourceHandler.ReconcileDesiredResources | charms/istio-pilot/src/resources_handler.py:90-123 | With a non-empty manifest: the stale deletes are exactly the owned objects equal to no document, each once, in the default namespace with the default flags, satisfying the sweep property. The applies follow only if no delete failed. The requests are the owner listing, then `DeleteLog` of the stale objects, then `ApplyLog` of the documents only if no delete failed. With an empty manifest: no owner listing and no applies, only a teardown that lists without a selector, uses the default flags and sends that list request and `DeleteLog` of what it listed. |
| Handler.ResourceHandler.PruneAndApply | charms/istio-pilot/src/resources_handler.py:110-115 | Deletes each listed object equal to no document, once each. If none of those deletes failed, applies the documents; otherwise it applies nothing. The requests sent are `DeleteLog` of the stale objects, followed by `ApplyLog` of the documents only when no delete failed. |

## Left out

- The network and lightkube's transport are not modelled. The client is an abstract store with fixed per-object refusals. One refusal covers both requests: a key refused for delete is refused for apply with the same error. A `list` never fails, and an `apply` fails only where the server refuses the object.
- The `field_manager="lightkube"` argument is not modelled. Neither are server-side apply field ownership and merge semantics: an apply replaces the stored object.
- Cluster.Stored: the server's metadata is one flag. Its values (a resourceVersion that changes on every write, a uid, a status) are not modelled. `HandlerSpec.ReconcileConverges` compares the owned objects with the stored forms of the documents, so it does not depend on those values.
- Cluster.Client.Delete: a successful delete removes the object from the store at once. Graceful deletion and finalizers are not modelled. A deleted Pod, for example, stays listed with a deletionTimestamp until its grace period ends, and a re-apply during that time patches the terminating object. `HandlerSpec.StrictTeardownEmpties` (a repeat lists and deletes nothing) and `HandlerSpec.ReconcileConverges` (the owned objects are exactly the stored forms of the documents) depend on this.
- Cluster.Client.List: the listing is one snapshot of the store. lightkube's lazy, paged iteration is not modelled, so deletes made while the teardown (lines 63-73) iterates do not affect what it lists.
- lightkube's own client-side checks of an object's namespace against the `namespace` argument are not modelled.
- Hashing is not modelled. `set(...)` at line 112 is taken as a set of values compared whole; whether lightkube's resource classes are hashable is not part of this model.
- Some parsing and rendering happens outside the model:
  - YAML parsing (`codecs.load_all_yaml`, `yaml.safe_load`) and Jinja rendering (`get_template`, `render`) are not modelled.
  - A manifest is given as its text together with its parsed documents. The branch at line 110 tests the text for being non-empty.
  - A rendered manifest is a map of string fields; non-string `apiVersion` or `kind` values are not modelled.
- Logging is a no-op. The class never defines `self.log`, so as written the first statement of the `except` branch (line 42) would itself raise unless a caller attaches a logger. The model assumes one exists.
- `self._apply_manifest` (line 115) is not defined in the class. It is modelled as applying the parsed documents one by one in the namespace argument.
- Only the descriptor tuple is modelled. The class that `create_namespaced_resource` generates and its `verbs=None` argument are not.
- `ApiError` is reduced to a status code and an optional message; the guard reads only the message.
- Text.Lower: lowers only the ASCII capitals A-Z. Python's `str.lower()` also lowers other Unicode letters and applies context rules such as the final sigma, and that is not modelled.
- Text.LowerAppend: holds for the modelled ASCII lowering. It does not hold for Python's full `str.lower()`: `("ΑΣ" + "Α").lower()` differs from `"ΑΣ".lower() + "Α".lower()` because of the final-sigma rule.
- Cluster.Client.List: leaves the order of the listing open; the API server's actual order is not modelled.
- Cluster.Enumerate: leaves the iteration order of a Python set open; the actual order is not modelled.
