/**
  The Adapter and ExtraResourcesAdapter interfaces (internal/reconciler/reconciler.go:76-119)
  as a record of functions, and the laws the reconciler relies on.
 */
module Adapters {
  import opened Types

  datatype Slot = Slot(gvk: Gvk, name: string)

  datatype Adapter = Adapter(
    gvk: Gvk,
    fieldManager: string,
    targetName: string -> string,
    // BuildManifest(spec, name, owner); the namespace only enters the object's key.
    build: (CrSpec, string, string) -> Fields,
    // ExtraResources(spec, targetName, owner), empty for adapters without the extension.
    extras: (CrSpec, string, string) -> seq<Extra>,
    // The extras' identities, which may depend on the target name alone.
    slots: string -> seq<Slot>,
    extract: Fields -> TargetStatus,
    // The vendor schema's own validation of a merged target.
    accepts: Fields -> bool,
    // What an Update leaves of a spec: encode with omitempty, CRD defaulting, decode.
    stored: CrSpec -> CrSpec,
    reasons: (string, string),
    counts: TargetStatus -> (int32, int32))

  type Registry = Kind -> Adapter

  function TargetKey(reg: Registry, k: CrKey): ObjKey {
    ObjKey(reg(k.kind).gvk, k.namespace, reg(k.kind).targetName(k.name))
  }

  function Manifest(reg: Registry, k: CrKey, spec: CrSpec): Fields {
    reg(k.kind).build(spec, reg(k.kind).targetName(k.name), k.name)
  }

  function ExtrasOf(reg: Registry, k: CrKey, spec: CrSpec): seq<Extra> {
    reg(k.kind).extras(spec, reg(k.kind).targetName(k.name), k.name)
  }

  function ExtraKey(k: CrKey, e: Extra): ObjKey {
    ObjKey(e.gvk, k.namespace, e.name)
  }

  function SlotsOf(reg: Registry, k: CrKey): seq<Slot> {
    reg(k.kind).slots(reg(k.kind).targetName(k.name))
  }

  /** Every object a custom resource can ever touch: its target, then its extras. */
  function Owned(reg: Registry, k: CrKey): seq<ObjKey> {
    [TargetKey(reg, k)] + seq(|SlotsOf(reg, k)|, i requires 0 <= i < |SlotsOf(reg, k)| =>
                                ObjKey(SlotsOf(reg, k)[i].gvk, k.namespace, SlotsOf(reg, k)[i].name))
  }

  /** "Every possible extra must be listed on every call" (reconciler.go:114-116). */
  ghost predicate ListsEverySlot(reg: Registry, k: CrKey, spec: CrSpec) {
    && |ExtrasOf(reg, k, spec)| == |SlotsOf(reg, k)|
    && forall i :: 0 <= i < |SlotsOf(reg, k)| ==>
         ExtrasOf(reg, k, spec)[i].gvk == SlotsOf(reg, k)[i].gvk
           && ExtrasOf(reg, k, spec)[i].name == SlotsOf(reg, k)[i].name
  }

  ghost predicate OwnedDistinct(reg: Registry, k: CrKey) {
    forall i, j :: 0 <= i < j < |Owned(reg, k)| ==> Owned(reg, k)[i] != Owned(reg, k)[j]
  }

  /** What the generic reconciler needs of its adapters. */
  ghost predicate Lawful(reg: Registry) {
    && (forall k: CrKey, spec: CrSpec :: Fits(k.kind, spec) ==> ListsEverySlot(reg, k, spec))
    && (forall k: CrKey :: OwnedDistinct(reg, k))
    && (forall k: CrKey, spec: CrSpec :: Fits(k.kind, spec) ==> WithoutStatus(Manifest(reg, k, spec)))
    && (forall k: CrKey, spec: CrSpec, i: nat ::
          Fits(k.kind, spec) && i < |ExtrasOf(reg, k, spec)| && ExtrasOf(reg, k, spec)[i].desired.Some? ==>
            WithoutStatus(ExtrasOf(reg, k, spec)[i].desired.value))
    && (forall kind: Kind, f: Fields :: WithoutStatus(f) ==> !reg(kind).extract(f).ready)
    && (forall kind: Kind, spec: CrSpec :: Fits(kind, spec) ==> Fits(kind, reg(kind).stored(spec)))
  }
}
