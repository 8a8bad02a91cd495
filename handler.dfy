/**
 * `ResourceHandler`: deletes guarded against expected API errors, bulk apply
 * and delete of parsed manifests, and the reconciler that converges the
 * owned objects of one kind to a desired manifest.
 */
module Handler {
  import opened Wrappers
  import opened Guard
  import opened Cluster
  import opened HandlerSpec

  class ResourceHandler {
    const appName: string
    const modelName: string
    /** `Client(namespace=model_name, field_manager="lightkube")` */
    const client: Client

    ghost predicate Valid()
      reads this, client
    {
      client.Valid() && client.namespace == modelName
    }

    /** A handler for application `appName` in model `modelName`, connected to a cluster holding `objects`. */
    constructor (appName: string, modelName: string, objects: map<Key, Obj>, refused: map<Key, ApiError>)
      requires Consistent(objects)
      ensures Valid() && fresh(client)
      ensures this.appName == appName && this.modelName == modelName
      ensures client.objects == objects && client.refused == refused && client.requests == []
    {
      this.appName := appName;
      this.modelName := modelName;
      client := new Client(modelName, objects, refused);
    }

    /** `delete_object`: one delete, with its failure swallowed or re-raised by the guard. */
    method DeleteObject(obj: Obj, ns: Option<string>, ignoreNotFound: bool, ignoreUnauthorized: bool)
      returns (err: Option<ApiError>)
      requires Valid()
      modifies client
      ensures Valid()
      ensures var k := Target(obj, client.Resolve(ns));
        err == Guarded(DeleteFailure(old(client.objects), client.refused, k), ignoreNotFound, ignoreUnauthorized) &&
        client.objects == AfterDelete(old(client.objects), client.refused, k) &&
        client.requests == old(client.requests) + [DeleteRequest(k)]
    {
      var failure := client.Delete(obj.kind, obj.name, ns);
      err := None;
      if failure.Some? && Classify(failure.value.message, ignoreNotFound, ignoreUnauthorized) == Reraise {
        err := failure;
      }
    }

    /**
     * The `for obj in ...: self.delete_object(obj, ...)` loop shared by
     * `delete_manifest`, the teardown and the reconciler: delete each object
     * in order and stop at the first error that escapes the guard.
     */
    method DeleteObjects(objs: seq<Obj>, ns: Option<string>, ignoreNotFound: bool, ignoreUnauthorized: bool)
      returns (err: Option<ApiError>)
      requires Valid()
      modifies client
      ensures Valid()
      ensures (client.objects, err) ==
        DeleteAll(old(client.objects), client.refused, objs, client.Resolve(ns), ignoreNotFound, ignoreUnauthorized)
      ensures client.requests == old(client.requests) +
        DeleteLog(old(client.objects), client.refused, objs, client.Resolve(ns), ignoreNotFound, ignoreUnauthorized)
    {
      var i := 0;
      while i < |objs|
        invariant 0 <= i <= |objs|
        invariant Valid()
        invariant DeleteAll(client.objects, client.refused, objs[i..], client.Resolve(ns), ignoreNotFound, ignoreUnauthorized) ==
                  DeleteAll(old(client.objects), client.refused, objs, client.Resolve(ns), ignoreNotFound, ignoreUnauthorized)
        invariant old(client.requests) +
                  DeleteLog(old(client.objects), client.refused, objs, client.Resolve(ns), ignoreNotFound, ignoreUnauthorized) ==
                  client.requests +
                  DeleteLog(client.objects, client.refused, objs[i..], client.Resolve(ns), ignoreNotFound, ignoreUnauthorized)
      {
        DeleteLoopStep(client.objects, client.refused, objs, i, client.Resolve(ns), ignoreNotFound, ignoreUnauthorized,
                       client.requests);
        var e := DeleteObject(objs[i], ns, ignoreNotFound, ignoreUnauthorized);
        if e.Some? {
          return e;
        }
        i := i + 1;
      }
      err := None;
    }

    /**
     * `delete_existing_resource_objects`. The label filter it builds,
     * `{...}.update(labels)`, is the value of `dict.update`, that is `None`, so
     * the listing carries no label selector: neither the owner label nor
     * `labels` restricts what is deleted.
     */
    method DeleteExistingResourceObjects(kind: string, ns: Option<string>, ignoreNotFound: bool,
                                         ignoreUnauthorized: bool, labels: Labels)
      returns (err: Option<ApiError>, ghost listed: seq<Obj>)
      requires Valid()
      modifies client
      ensures Valid()
      ensures forall o :: o in listed <==> o in Listed(old(client.objects), kind, client.Resolve(ns), None)
      ensures Distinct(listed)
      ensures (client.objects, err) ==
        DeleteAll(old(client.objects), client.refused, listed, client.Resolve(ns), ignoreNotFound, ignoreUnauthorized)
      ensures Swept(old(client.objects), client.objects, client.refused, listed, client.Resolve(ns),
                    ignoreNotFound, ignoreUnauthorized, err)
      ensures client.requests == old(client.requests) + [ListRequest(kind, client.Resolve(ns), None)] +
        DeleteLog(old(client.objects), client.refused, listed, client.Resolve(ns), ignoreNotFound, ignoreUnauthorized)
    {
      var found := client.List(kind, ns, None);
      ListedDistinctNames(client.objects, kind, client.Resolve(ns), None, found);
      DeleteAllSweeps(client.objects, client.refused, found, client.Resolve(ns), ignoreNotFound, ignoreUnauthorized);
      err := DeleteObjects(found, ns, ignoreNotFound, ignoreUnauthorized);
      listed := found;
    }

    /** `apply_manifest`: apply every parsed document in order; a failure propagates. */
    method ApplyManifest(manifest: Manifest, ns: Option<string>) returns (err: Option<ApiError>)
      requires Valid()
      modifies client
      ensures Valid()
      ensures (client.objects, err) == ApplyAll(old(client.objects), client.refused, manifest.objects, ns, client.namespace)
      ensures client.requests == old(client.requests) + ApplyLog(client.refused, manifest.objects, ns, client.namespace)
    {
      var docs := manifest.objects;
      var i := 0;
      while i < |docs|
        invariant 0 <= i <= |docs|
        invariant Valid()
        invariant ApplyAll(client.objects, client.refused, docs[i..], ns, client.namespace) ==
                  ApplyAll(old(client.objects), client.refused, docs, ns, client.namespace)
        invariant old(client.requests) + ApplyLog(client.refused, docs, ns, client.namespace) ==
                  client.requests + ApplyLog(client.refused, docs[i..], ns, client.namespace)
      {
        ApplyLoopStep(client.objects, client.refused, docs, i, ns, client.namespace, client.requests);
        ghost var k := ApplyKey(docs[i], ns, client.namespace);
        var e := client.Apply(docs[i], ns);
        if e.Some? {
          assert k in client.refused && e == Some(client.refused[k]);
          return e;
        }
        assert k !in client.refused;
        i := i + 1;
      }
      err := None;
    }

    /** `delete_manifest`: delete every parsed document in order through the guard. */
    method DeleteManifest(manifest: Manifest, ns: Option<string>, ignoreNotFound: bool, ignoreUnauthorized: bool)
      returns (err: Option<ApiError>)
      requires Valid()
      modifies client
      ensures Valid()
      ensures (client.objects, err) ==
        DeleteAll(old(client.objects), client.refused, manifest.objects, client.Resolve(ns), ignoreNotFound, ignoreUnauthorized)
      ensures client.requests == old(client.requests) +
        DeleteLog(old(client.objects), client.refused, manifest.objects, client.Resolve(ns), ignoreNotFound, ignoreUnauthorized)
    {
      err := DeleteObjects(manifest.objects, ns, ignoreNotFound, ignoreUnauthorized);
    }

    /**
     * `reconcile_desired_resources`. With a non-empty manifest it lists the
     * owned objects of `kind`, deletes, with the default flags and in the
     * client's default namespace, each listed object that equals no parsed
     * document, and then applies the documents; with an empty one it tears
     * down everything of `kind` in the namespace. lightkube's `list` is lazy:
     * the listing of owned objects is requested only when the difference
     * iterates it, so the teardown branch never sends it. The source calls an
     * undefined `self._apply_manifest(desired_resources, ...)` on the parsed
     * documents; it is modelled as applying them one by one, as
     * `apply_manifest` does.
     */
    method ReconcileDesiredResources(kind: string, desired: Manifest, ns: Option<string>)
      returns (err: Option<ApiError>, ghost swept: seq<Obj>, ghost sent: seq<Request>)
      requires Valid()
      modifies client
      ensures Valid()
      ensures Distinct(swept)
      ensures desired.text != "" ==>
        (forall o :: o in swept <==>
           o in Stale(Listed(old(client.objects), kind, client.Resolve(ns), Some(OwnerSelector(appName))), desired.objects)) &&
        PrunedThenApplied(old(client.objects), client.objects, client.refused, swept, desired.objects, ns, modelName,
                          err, sent) &&
        client.requests == old(client.requests) +
          [ListRequest(kind, client.Resolve(ns), Some(OwnerSelector(appName)))] + sent
      ensures desired.text == "" ==>
        (forall o :: o in swept <==> o in Listed(old(client.objects), kind, client.Resolve(ns), None)) &&
        (client.objects, err) == DeleteAll(old(client.objects), client.refused, swept, client.Resolve(ns), false, false) &&
        Swept(old(client.objects), client.objects, client.refused, swept, client.Resolve(ns), false, false, err) &&
        sent == DeleteLog(old(client.objects), client.refused, swept, client.Resolve(ns), false, false) &&
        client.requests == old(client.requests) + [ListRequest(kind, client.Resolve(ns), None)] + sent
    {
      if desired.text != "" {
        var existing := client.List(kind, ns, Some(OwnerSelector(appName)));
        ListedDistinctNames(old(client.objects), kind, client.Resolve(ns), Some(OwnerSelector(appName)), existing);
        err, swept, sent := PruneAndApply(existing, desired, ns);
      } else {
        err, swept := DeleteExistingResourceObjects(kind, ns, false, false, map[WorkloadLabel(appName) := "true"]);
        sent := DeleteLog(old(client.objects), client.refused, swept, client.Resolve(ns), false, false);
      }
    }

    /** The non-empty branch of the reconciler: delete what is listed but not desired, then apply the manifest. */
    method PruneAndApply(existing: seq<Obj>, desired: Manifest, ns: Option<string>)
      returns (err: Option<ApiError>, ghost swept: seq<Obj>, ghost sent: seq<Request>)
      requires Valid()
      requires DistinctNames(existing) && Distinct(existing)
      modifies client
      ensures Valid()
      ensures forall o :: o in swept <==> o in existing && o !in desired.objects
      ensures Distinct(swept)
      ensures PrunedThenApplied(old(client.objects), client.objects, client.refused, swept, desired.objects, ns, modelName,
                                err, sent)
      ensures client.requests == old(client.requests) + sent
    {
      var current := set o | o in existing;
      var stale := Enumerate(Stale(current, desired.objects));
      swept := stale;
      DistinctNamesSubset(existing, stale);
      DeleteAllSweeps(client.objects, client.refused, stale, modelName, false, false);
      ghost var deletes := DeleteLog(client.objects, client.refused, stale, modelName, false, false);
      err := DeleteObjects(stale, None, false, false);
      if err.Some? {
        sent := deletes;
        return;
      }
      err := ApplyManifest(desired, ns);
      sent := deletes + ApplyLog(client.refused, desired.objects, ns, modelName);
      AppendAssoc(old(client.requests), deletes, ApplyLog(client.refused, desired.objects, ns, modelName));
    }
  }
}
