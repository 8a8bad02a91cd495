/**
 * `ResourceHandler.create_ns_resource`: the group, version, kind and plural
 * name of a namespaced custom resource, read off the `apiVersion` and `kind`
 * fields of a rendered manifest.
 */
module Descriptor {
  import opened Wrappers
  import opened Text

  /** The arguments handed to lightkube's `create_namespaced_resource`. */
  datatype ResourceDescriptor = ResourceDescriptor(group: string, version: string, kind: string, plural: string)

  /** The top-level string fields of the document `yaml.safe_load` returns. */
  type Document = map<string, string>

  /** The exceptions the derivation can raise. */
  datatype DescriptorError =
    | KeyError(key: string)  // a field the derivation reads is missing
    | IndexError             // `apiVersion` has no "/", so there is no `split("/")[1]`

  /**
   * The descriptor of `manifest`. The keyword arguments are evaluated left to
   * right, so a missing `apiVersion` is reported before a missing "/" and
   * both before a missing `kind`.
   */
  function CreateNsResource(manifest: Document): (r: Result<ResourceDescriptor, DescriptorError>)
    ensures r == Failure(KeyError("apiVersion")) <==> "apiVersion" !in manifest
    ensures r == Failure(IndexError) <==> "apiVersion" in manifest && '/' !in manifest["apiVersion"]
    ensures r == Failure(KeyError("kind")) <==>
      "apiVersion" in manifest && '/' in manifest["apiVersion"] && "kind" !in manifest
    ensures r.Success? <==> "apiVersion" in manifest && '/' in manifest["apiVersion"] && "kind" in manifest
    ensures r.Success? ==>
      var d := r.value;
      var prefix := d.group + "/" + d.version;
      var apiVersion := manifest["apiVersion"];
      '/' !in d.group && '/' !in d.version &&
      |prefix| <= |apiVersion| && apiVersion[..|prefix|] == prefix &&
      (|prefix| == |apiVersion| || apiVersion[|prefix|] == '/') &&
      d.kind == manifest["kind"] &&
      d.plural == Lower(d.kind) + "s"
  {
    if "apiVersion" !in manifest then Failure(KeyError("apiVersion"))
    else
      var parts := Split(manifest["apiVersion"], '/');
      if |parts| < 2 then Failure(IndexError)
      else if "kind" !in manifest then Failure(KeyError("kind"))
      else
        var kind := manifest["kind"];
        LowerAppend(kind, "s");
        JoinSplit(manifest["apiVersion"], '/');
        JoinPrefix(parts, '/');
        Success(ResourceDescriptor(parts[0], parts[1], kind, Lower(kind + "s")))
  }

  /** The join of at least two parts starts with the first two and a separator or ends there. */
  lemma JoinPrefix(parts: seq<string>, sep: char)
    requires |parts| >= 2
    ensures var prefix := parts[0] + [sep] + parts[1];
      var s := Join(parts, sep);
      |prefix| <= |s| && s[..|prefix|] == prefix && (|prefix| == |s| || s[|prefix|] == sep)
  {
    var rest := parts[1..];
    assert Join(parts, sep) == parts[0] + [sep] + Join(rest, sep);
    if |rest| > 1 {
      assert Join(rest, sep) == parts[1] + [sep] + Join(rest[1..], sep);
    }
  }

  /**
   * Every apiVersion of the form group/version with a kind yields exactly that
   * group, version and kind, and the plural is the lower-cased kind plus "s".
   */
  lemma {:induction false} DescriptorRoundTrip(group: string, version: string, kind: string)
    requires '/' !in group && '/' !in version
    ensures CreateNsResource(map["apiVersion" := group + "/" + version, "kind" := kind]) ==
      Success(ResourceDescriptor(group, version, kind, Lower(kind) + "s"))
  {
    var parts := [group, version];
    assert Join(parts, '/') == group + "/" + version by {
      assert Join(parts[1..], '/') == version;
    }
    SplitJoin(parts, '/');
    LowerAppend(kind, "s");
  }

  /** The Istio Gateway: networking.istio.io/v1beta1 and Gateway give the plural "gateways". */
  lemma IstioGateway()
    ensures CreateNsResource(map["apiVersion" := "networking.istio.io/v1beta1", "kind" := "Gateway"]) ==
      Success(ResourceDescriptor("networking.istio.io", "v1beta1", "Gateway", "gateways"))
  {
    var group, version := "networking.istio.io", "v1beta1";
    assert '/' !in group by {
      assert forall i :: 0 <= i < |group| ==> group[i] != '/';
    }
    assert '/' !in version by {
      assert forall i :: 0 <= i < |version| ==> version[i] != '/';
    }
    assert group + "/" + version == "networking.istio.io/v1beta1";
    DescriptorRoundTrip(group, version, "Gateway");
    GatewayPlural();
  }

  lemma GatewayPlural()
    ensures Lower("Gateway") + "s" == "gateways"
  {
    assert Lower("Gateway")[0] == LowerChar('G') == 'g';
  }
}
