/**
 * The lightkube client the resource handler talks to, as an abstract
 * Kubernetes namespace store: objects stored under (kind, namespace, name),
 * the per-object refusals of the API server (RBAC denials, conflicts), and a
 * log of the requests issued. The network itself is not modelled.
 */
module Cluster {
  import opened Wrappers
  import opened Text
  import opened Guard

  type Labels = map<string, string>

  /**
   * A Kubernetes object as the handler sees it. `namespace` is `None` for a
   * document parsed from a manifest that does not name one. `serverFields`
   * tells whether the object carries the metadata the API server fills in
   * when it stores an object (resourceVersion, uid, creationTimestamp,
   * managedFields, status): every object read back from the cluster does, a
   * document parsed from a manifest does not. `rest` stands for everything
   * else in the object (its spec, annotations and so on). All of it takes
   * part in whole-object equality.
   */
  datatype Obj = Obj(kind: string, namespace: Option<string>, name: string, labels: Labels,
                     serverFields: bool, rest: string)

  /** Where the API server keeps an object. */
  datatype Key = Key(kind: string, namespace: string, name: string)

  /** The requests the handler issues through the client, in order. */
  datatype Request =
    | ListRequest(kind: string, namespace: string, selector: Option<Labels>)
    | DeleteRequest(key: Key)
    | ApplyRequest(key: Key)

  /** Every object is stored under its own kind, namespace and name, and carries the server's metadata. */
  ghost predicate Consistent(objects: map<Key, Obj>) {
    forall k | k in objects ::
      objects[k].kind == k.kind && objects[k].namespace == Some(k.namespace) && objects[k].name == k.name &&
      objects[k].serverFields
  }

  /** A label selector; `None` (no `labels` argument) selects everything. */
  predicate Selects(selector: Option<Labels>, labels: Labels) {
    match selector
    case None => true
    case Some(wanted) => forall l :: l in wanted ==> l in labels && labels[l] == wanted[l]
  }

  /** What `list(kind, namespace=namespace, labels=selector)` returns. */
  function Listed(objects: map<Key, Obj>, kind: string, namespace: string, selector: Option<Labels>): set<Obj> {
    set o | o in objects.Values && o.kind == kind && o.namespace == Some(namespace) && Selects(selector, o.labels)
  }

  /**
   * The API server's 404 for a delete of a missing object. The message is a
   * simplified `<plural> "<name>" not found`: the real one names the
   * resource's plural with its API group for non-core kinds, and irregular
   * plurals are not the kind plus "s". All the handler relies on is that
   * the message contains "not found".
   */
  function NotFound(k: Key): (e: ApiError)
    ensures e.code == 404 && e.message.Some? && Occurs(NotFoundText, e.message.value)
  {
    var m := Lower(k.kind) + "s \"" + k.name + "\" " + NotFoundText;
    assert m[|m| - |NotFoundText|..] == NotFoundText;
    assert OccursAt(NotFoundText, m, |m| - |NotFoundText|);
    ApiError(404, Some(m))
  }

  /** How the API server answers a delete of `k`: the error it fails with, `None` on success. */
  function DeleteFailure(objects: map<Key, Obj>, refused: map<Key, ApiError>, k: Key): Option<ApiError> {
    if k in refused then Some(refused[k])
    else if k in objects then None
    else Some(NotFound(k))
  }

  /** The store after a delete of `k`. */
  function AfterDelete(objects: map<Key, Obj>, refused: map<Key, ApiError>, k: Key): map<Key, Obj> {
    if DeleteFailure(objects, refused, k).None? then objects - {k} else objects
  }

  /**
   * Where `apply(o, namespace=namespace)` writes: the namespace argument, else
   * the object's own namespace, else the client's default namespace.
   */
  function ApplyKey(o: Obj, namespace: Option<string>, default: string): Key {
    Key(o.kind, namespace.GetOr(o.namespace.GetOr(default)), o.name)
  }

  /** How the API server answers an apply to `k`: server-side apply fails only where it is refused. */
  function ApplyFailure(refused: map<Key, ApiError>, k: Key): Option<ApiError> {
    if k in refused then Some(refused[k]) else None
  }

  /**
   * The object an apply stores: the applied one, placed in the namespace it
   * was written to and carrying the metadata the server fills in.
   */
  function Stored(o: Obj, namespace: string): (s: Obj)
    ensures s.serverFields && s.namespace == Some(namespace)
    ensures s.kind == o.kind && s.name == o.name && s.labels == o.labels && s.rest == o.rest
  {
    o.(namespace := Some(namespace), serverFields := true)
  }

  /** No object occurs twice. */
  predicate Distinct(items: seq<Obj>) {
    forall i, j :: 0 <= i < j < |items| ==> items[i] != items[j]
  }

  /** The elements of `s`, each once, in an order the model leaves open (that of a listing, or of a Python set). */
  method Enumerate(s: set<Obj>) returns (items: seq<Obj>)
    ensures forall o :: o in items <==> o in s
    ensures Distinct(items)
  {
    items := [];
    var rest := s;
    while rest != {}
      invariant forall o :: o in items <==> o in s && o !in rest
      invariant rest <= s
      invariant Distinct(items)
      decreases rest
    {
      var o :| o in rest;
      items := items + [o];
      rest := rest - {o};
    }
  }

  /** In a consistent store, two listed objects of one kind and namespace with the same name are the same object. */
  lemma ListedNamesDistinct(objects: map<Key, Obj>, kind: string, namespace: string, selector: Option<Labels>, a: Obj, b: Obj)
    requires Consistent(objects)
    requires a in Listed(objects, kind, namespace, selector) && b in Listed(objects, kind, namespace, selector)
    requires a.name == b.name
    ensures a == b
  {
    var ka :| ka in objects && objects[ka] == a;
    var kb :| kb in objects && objects[kb] == b;
    assert ka == kb;
  }

  class Client {
    /** The client's default namespace: `Client(namespace=model_name)`. */
    const namespace: string
    /** Objects whose requests the API server refuses, with the error it answers. */
    const refused: map<Key, ApiError>
    /** The objects in the cluster. */
    var objects: map<Key, Obj>
    /** Every request issued so far. */
    ghost var requests: seq<Request>

    ghost predicate Valid()
      reads this
    {
      Consistent(objects)
    }

    constructor (namespace: string, objects: map<Key, Obj>, refused: map<Key, ApiError>)
      requires Consistent(objects)
      ensures Valid()
      ensures this.namespace == namespace && this.objects == objects && this.refused == refused
      ensures requests == []
    {
      this.namespace := namespace;
      this.objects := objects;
      this.refused := refused;
      requests := [];
    }

    /** The namespace a call with `namespace=ns` goes to. */
    function Resolve(ns: Option<string>): string {
      ns.GetOr(namespace)
    }

    /** `list(kind, namespace=ns, labels=selector)`: the selected objects, each once, in the server's order. */
    method List(kind: string, ns: Option<string>, selector: Option<Labels>) returns (found: seq<Obj>)
      modifies this`requests
      ensures forall o :: o in found <==> o in Listed(objects, kind, Resolve(ns), selector)
      ensures Distinct(found)
      ensures requests == old(requests) + [ListRequest(kind, Resolve(ns), selector)]
    {
      found := Enumerate(Listed(objects, kind, Resolve(ns), selector));
      requests := requests + [ListRequest(kind, Resolve(ns), selector)];
    }

    method Delete(kind: string, name: string, ns: Option<string>) returns (failure: Option<ApiError>)
      requires Valid()
      modifies this`objects, this`requests
      ensures Valid()
      ensures var k := Key(kind, Resolve(ns), name);
        failure == DeleteFailure(old(objects), refused, k) &&
        objects == AfterDelete(old(objects), refused, k) &&
        requests == old(requests) + [DeleteRequest(k)]
    {
      var k := Key(kind, Resolve(ns), name);
      failure := DeleteFailure(objects, refused, k);
      objects := AfterDelete(objects, refused, k);
      requests := requests + [DeleteRequest(k)];
    }

    method Apply(o: Obj, ns: Option<string>) returns (failure: Option<ApiError>)
      requires Valid()
      modifies this`objects, this`requests
      ensures Valid()
      ensures var k := ApplyKey(o, ns, namespace);
        failure == ApplyFailure(refused, k) &&
        objects == (if failure.None? then old(objects)[k := Stored(o, k.namespace)] else old(objects)) &&
        requests == old(requests) + [ApplyRequest(k)]
    {
      var k := ApplyKey(o, ns, namespace);
      failure := ApplyFailure(refused, k);
      if failure.None? {
        objects := objects[k := Stored(o, k.namespace)];
      }
      requests := requests + [ApplyRequest(k)];
    }
  }
}
