/**
 Projecting spec.ingresses and spec.ingressContract into the notebook controller ConfigMap
 (internal/controller/manifests.go): apply first, then clear a contract key the spec no longer has.
 */
module IngressConfig {
  import opened GoText
  import opened Json
  import opened ServerSideApply

  const FIELD_OWNER: string := "workbenches-operator"
  const INGRESSES: Key := Data("ingresses")
  const CONTRACT: Key := Data("contract")

  /** The metadata of an object holds none of its data. */
  predicate NoData(metadata: Values) {
    forall k :: k in metadata ==> !k.Data?
  }

  /** What the operator applies to the ConfigMap. */
  function ConfigPayload(metadata: Values, ingresses: string, contract: Option<string>): Values {
    var base := metadata[INGRESSES := Text(ingresses)];
    if contract.Some? then base[CONTRACT := Text(contract.value)] else base
  }

  /** The ConfigMap after a successful projection. */
  function Projected(f: Fields, metadata: Values, ingresses: string, contract: Option<string>): Fields {
    var g := Apply(f, ConfigPayload(metadata, ingresses, contract), FIELD_OWNER);
    if contract.None? then RemoveKey(g, CONTRACT) else g
  }

  /** Whatever the history of owners and values: the ConfigMap says what the spec says, and a key
      that only others own is untouched. */
  lemma ProjectionMeaning(f: Fields, metadata: Values, ingresses: string, contract: Option<string>)
    requires NoData(metadata)
    ensures var g := Projected(f, metadata, ingresses, contract);
      && INGRESSES in g && g[INGRESSES].value == Text(ingresses)
      && (CONTRACT in g <==> contract.Some?) && (contract.Some? ==> g[CONTRACT].value == Text(contract.value))
      && (forall k: Key :: k.Data? && k !in {INGRESSES, CONTRACT} && k in f && FIELD_OWNER !in f[k].managers ==>
        k in g && g[k] == f[k])
  {
    var g := Projected(f, metadata, ingresses, contract);
    var payload := ConfigPayload(metadata, ingresses, contract);
    assert INGRESSES != CONTRACT by { assert |INGRESSES.name| != |CONTRACT.name|; }
    forall k: Key | k.Data? && k !in {INGRESSES, CONTRACT} && k in f && FIELD_OWNER !in f[k].managers ensures k in g
      && g[k] == f[k] {
      assert k !in payload;
      ApplyKeepsForeign(f, payload, FIELD_OWNER, k);
    }
  }

  /** Why the clear is needed: an apply without the key leaves it behind exactly when the operator
      was not its only owner. */
  lemma ApplyAloneKeepsContract(f: Fields, metadata: Values, ingresses: string)
    requires NoData(metadata)
    ensures CONTRACT in Apply(f, ConfigPayload(metadata, ingresses, None), FIELD_OWNER) <==>
      CONTRACT in f && f[CONTRACT].managers != {FIELD_OWNER}
  {
    assert INGRESSES != CONTRACT by { assert |INGRESSES.name| != |CONTRACT.name|; }
  }

  /** Projecting again changes nothing. */
  lemma ProjectionStable(f: Fields, metadata: Values, ingresses: string, contract: Option<string>)
    requires NoData(metadata)
    ensures var g := Projected(f, metadata, ingresses, contract); Projected(g, metadata, ingresses, contract) == g
  {
    hide Apply;
    var g := Projected(f, metadata, ingresses, contract);
    var payload := ConfigPayload(metadata, ingresses, contract);
    var applied := Apply(f, payload, FIELD_OWNER);
    ApplyOwns(f, payload, FIELD_OWNER);
    if contract.None? {
      assert CONTRACT !in payload by { assert |INGRESSES.name| != |CONTRACT.name|; }
      assert OwnedBy(applied, FIELD_OWNER).Keys == payload.Keys;
      assert OwnedBy(g, FIELD_OWNER) == payload;
    }
    ApplyChangesNothing(g, payload, FIELD_OWNER);
  }
}
