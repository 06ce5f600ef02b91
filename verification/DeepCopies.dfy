/** The generated deep copies. Go pointers, maps and slices are references here; a copy must equal the original,
    nil-ness included, and share none of its memory. */
module DeepCopies {
  import Objects

  /** The target of a *string. */
  class StringCell {
    var value: string

    constructor (value: string)
      ensures this.value == value
    {
      this.value := value;
    }
  }

  /** A Go map[string]string. */
  class StringMap {
    var entries: map<string, string>

    constructor ()
      ensures entries == map[]
    {
      entries := map[];
    }
  }

  function Deref(cell: StringCell?): Objects.Option<string>
    reads cell
  {
    if cell == null then Objects.None else Objects.Some(cell.value)
  }

  ghost function Single(o: object?): set<object> {
    if o == null then {} else {o}
  }

  class ImageConfiguration {
    var image: StringCell?
    var imagePullPolicy: StringCell?

    constructor ()
      ensures image == null && imagePullPolicy == null
    {
      image, imagePullPolicy := null, null;
    }

    /** The memory behind the struct. */
    ghost function Cells(): set<object>
      reads this
    {
      Single(image) + Single(imagePullPolicy)
    }

    function Value(): Objects.ImageConfig
      reads this, image, imagePullPolicy
    {
      Objects.ImageConfig(Deref(image), Deref(imagePullPolicy))
    }

    method DeepCopyInto(out: ImageConfiguration)
      modifies out
      ensures out.Value() == old(Value()) == Value()
      ensures fresh(out.Cells())
    {
      out.image, out.imagePullPolicy := image, imagePullPolicy;
      if image != null {
        out.image := new StringCell(image.value);
      }
      if imagePullPolicy != null {
        out.imagePullPolicy := new StringCell(imagePullPolicy.value);
      }
    }

    method DeepCopy() returns (out: ImageConfiguration)
      ensures fresh(out) && fresh(out.Cells())
      ensures out.Value() == Value()
    {
      out := new ImageConfiguration();
      DeepCopyInto(out);
    }
  }

  class ProvisionerSpec {
    var hostPathDir: string
    var pvc: string
    var storageSize: string
    var scForNFSPvc: string
    var nodeSelector: StringMap?
    var scForNFSProvisioner: string
    var imageConfig: ImageConfiguration?

    constructor ()
      ensures nodeSelector == null && imageConfig == null
    {
      hostPathDir, pvc, storageSize, scForNFSPvc, scForNFSProvisioner := "", "", "", "", "";
      nodeSelector, imageConfig := null, null;
    }

    ghost function Cells(): set<object>
      reads this, imageConfig
    {
      Single(nodeSelector) + Single(imageConfig) + if imageConfig == null then {} else imageConfig.Cells()
    }

    /** The spec as the reconciler's builders see it. */
    function Value(): Objects.Spec
      reads this, nodeSelector, imageConfig
      reads if imageConfig == null then null else imageConfig.image
      reads if imageConfig == null then null else imageConfig.imagePullPolicy
    {
      Objects.Spec(
        hostPathDir, pvc, storageSize, scForNFSPvc,
        if nodeSelector == null then Objects.None else Objects.Some(nodeSelector.entries),
        scForNFSProvisioner,
        if imageConfig == null then Objects.None else Objects.Some(imageConfig.Value()))
    }

    method CopySelector() returns (selector: StringMap?)
      ensures selector == null <==> nodeSelector == null
      ensures selector != null ==> fresh(selector) && selector.entries == nodeSelector.entries
    {
      selector := null;
      if nodeSelector != null {
        selector := CopyMap(nodeSelector);
      }
    }

    method CopyImageConfig() returns (config: ImageConfiguration?)
      ensures config == null <==> imageConfig == null
      ensures config != null ==> fresh(config) && fresh(config.Cells()) && config.Value() == imageConfig.Value()
    {
      config := null;
      if imageConfig != null {
        config := imageConfig.DeepCopy();
      }
    }

    method DeepCopyInto(out: ProvisionerSpec)
      modifies out
      ensures out.Value() == old(Value()) == Value()
      ensures fresh(out.Cells())
    {
      hide ImageConfiguration.Value, ImageConfiguration.Cells, Deref;
      var selector := CopySelector();
      var config := CopyImageConfig();
      out.hostPathDir, out.pvc, out.storageSize := hostPathDir, pvc, storageSize;
      out.scForNFSPvc, out.scForNFSProvisioner := scForNFSPvc, scForNFSProvisioner;
      out.nodeSelector, out.imageConfig := selector, config;
    }

    method DeepCopy() returns (out: ProvisionerSpec)
      ensures fresh(out) && fresh(out.Cells())
      ensures out.Value() == Value()
    {
      out := new ProvisionerSpec();
      DeepCopyInto(out);
    }
  }

  /** The loop that fills a new map entry by entry. */
  method CopyMap(source: StringMap) returns (copy: StringMap)
    ensures fresh(copy) && copy.entries == source.entries
  {
    copy := new StringMap();
    var keys := source.entries.Keys;
    while keys != {}
      invariant keys <= source.entries.Keys
      invariant copy.entries == map k | k in source.entries && k !in keys :: source.entries[k]
    {
      var key :| key in keys;
      copy.entries := copy.entries[key := source.entries[key]];
      keys := keys - {key};
    }
  }

  datatype StatusValue = StatusValue(nodes: Objects.Option<seq<string>>, error: string)

  class ProvisionerStatus {
    var nodes: array?<string>
    var error: string

    constructor ()
      ensures nodes == null
    {
      nodes, error := null, "";
    }

    ghost function Cells(): set<object>
      reads this
    {
      Single(nodes)
    }

    function Value(): StatusValue
      reads this, nodes
    {
      StatusValue(if nodes == null then Objects.None else Objects.Some(nodes[..]), error)
    }

    method DeepCopyInto(out: ProvisionerStatus)
      modifies out
      ensures out.Value() == old(Value()) == Value()
      ensures fresh(out.Cells())
    {
      out.nodes, out.error := nodes, error;
      if nodes != null {
        var source := nodes;
        var copy := new string[source.Length];
        forall i | 0 <= i < source.Length {
          copy[i] := source[i];
        }
        out.nodes := copy;
        assert out.nodes[..] == source[..] == old(nodes[..]);
      }
    }
  }

  /** The kind and the version of a resource, copied by plain assignment. */
  datatype TypeMeta = TypeMeta(kind: string, apiVersion: string)

  datatype Content = Content(typeMeta: TypeMeta, spec: Objects.Spec, status: StatusValue)

  /** The resource without its object metadata, whose copy is library code. Spec and status are embedded structs: they
      belong to one resource and are never replaced. */
  class Provisioner {
    var typeMeta: TypeMeta
    const spec: ProvisionerSpec
    const status: ProvisionerStatus

    constructor ()
      ensures fresh(spec) && fresh(status) && fresh(Cells())
    {
      typeMeta := TypeMeta("", "");
      spec := new ProvisionerSpec();
      status := new ProvisionerStatus();
    }

    ghost function Cells(): set<object>
      reads spec, spec.imageConfig, status
    {
      spec.Cells() + status.Cells()
    }

    /** Everything that can be reached from the resource. */
    ghost function Memory(): set<object>
      reads spec, spec.imageConfig, status
    {
      {this, spec, status} + Cells()
    }

    function Value(): Content
      reads this, spec, spec.nodeSelector, spec.imageConfig, status, status.nodes
      reads if spec.imageConfig == null then null else spec.imageConfig.image
      reads if spec.imageConfig == null then null else spec.imageConfig.imagePullPolicy
    {
      Content(typeMeta, spec.Value(), status.Value())
    }

    method DeepCopyInto(out: Provisioner)
      modifies out, out.spec, out.status
      ensures out.Value() == old(Value()) == Value()
      ensures fresh(out.Cells())
    {
      out.typeMeta := typeMeta;
      spec.DeepCopyInto(out.spec);
      status.DeepCopyInto(out.status);
    }
  }

  method CopyItem(p: Provisioner) returns (copy: Provisioner)
    ensures copy.Value() == p.Value() && fresh(copy.Memory())
  {
    copy := new Provisioner();
    p.DeepCopyInto(copy);
  }

  twostate lemma AllOld(p: Provisioner)
    ensures forall o :: o in old(p.Memory()) ==> !fresh(o)
  {
  }

  /** A copy shares no memory with its original. */
  twostate lemma CopyIsSeparate(p: Provisioner, new copy: Provisioner)
    requires fresh(copy.Memory())
    ensures old(p.Memory()) !! copy.Memory()
  {
    AllOld(p);
    hide Provisioner.Memory;
  }

  /** No two of the resources share any memory. */
  ghost predicate Separate(items: seq<Provisioner>)
    reads set i | 0 <= i < |items| :: items[i].spec
    reads set i | 0 <= i < |items| && items[i].spec.imageConfig != null :: items[i].spec.imageConfig
    reads set i | 0 <= i < |items| :: items[i].status
  {
    forall j, k :: 0 <= j < k < |items| ==> items[j].Memory() !! items[k].Memory()
  }

  /** The loop over the items. */
  method CopyEach(source: array<Provisioner>) returns (copies: seq<Provisioner>)
    ensures |copies| == source.Length && Separate(copies)
    ensures forall j :: 0 <= j < source.Length ==> copies[j].Value() == source[j].Value() && fresh(copies[j].Memory())
  {
    hide Provisioner.Value, Provisioner.Memory;
    copies := [];
    for i := 0 to source.Length
      invariant |copies| == i && Separate(copies)
      invariant forall j :: 0 <= j < i ==> copies[j].Value() == source[j].Value() && fresh(copies[j].Memory())
    {
      label before:
      var copy := CopyItem(source[i]);
      forall j | 0 <= j < i ensures copies[j].Memory() !! copy.Memory() {
        CopyIsSeparate@before(copies[j], copy);
      }
      copies := copies + [copy];
    }
  }

  method CopyItems(source: array<Provisioner>) returns (result: array<Provisioner>)
    ensures fresh(result) && result.Length == source.Length && Separate(result[..])
    ensures forall j :: 0 <= j < source.Length ==> result[j].Value() == source[j].Value() && fresh(result[j].Memory())
  {
    hide Provisioner.Value, Provisioner.Memory;
    var copies := CopyEach(source);
    result := new Provisioner[|copies|](i requires 0 <= i < |copies| => copies[i]);
    assert result[..] == copies;
  }

  class ProvisionerList {
    var typeMeta: TypeMeta
    var items: array?<Provisioner>

    /** A nil list stays nil; otherwise the items are copied one by one, each into new memory of its own. */
    method DeepCopyInto(out: ProvisionerList)
      modifies out
      ensures out.typeMeta == old(typeMeta)
      ensures out.items == null <==> old(items) == null
      ensures old(items) != null ==>
                && fresh(out.items) && out.items.Length == old(items).Length && Separate(out.items[..])
                && forall i :: 0 <= i < out.items.Length ==>
                     out.items[i].Value() == old(items[i].Value()) && fresh(out.items[i].Memory())
    {
      hide Provisioner.Value, Provisioner.Memory;
      out.typeMeta, out.items := typeMeta, items;
      if items != null {
        var copies := CopyItems(items);
        out.items := copies;
      }
    }
  }

  /** Two resources without common memory, such as an original and its copy or two copies in one list: whatever is
      written to the memory of one never shows in the other. */
  twostate lemma WritesDoNotShow(a: Provisioner, b: Provisioner, written: set<object>)
    requires old(a.Memory() !! b.Memory())
    requires forall o: object :: o in old(a.Memory() + b.Memory()) && o !in written ==> unchanged(o)
    ensures written <= old(b.Memory()) ==> a.Value() == old(a.Value())
    ensures written <= old(a.Memory()) ==> b.Value() == old(b.Value())
  {
  }

  // ---------------------------------------------------------------- what equal values mean

  /** Equal values are equal fields, nil-ness included: none of them is lost. */
  lemma ImageValueTells(a: ImageConfiguration, b: ImageConfiguration)
    requires a.Value() == b.Value()
    ensures a.image == null <==> b.image == null
    ensures a.image != null ==> a.image.value == b.image.value
    ensures a.imagePullPolicy == null <==> b.imagePullPolicy == null
    ensures a.imagePullPolicy != null ==> a.imagePullPolicy.value == b.imagePullPolicy.value
  {
  }

  lemma SpecValueTells(a: ProvisionerSpec, b: ProvisionerSpec)
    requires a.Value() == b.Value()
    ensures a.hostPathDir == b.hostPathDir && a.pvc == b.pvc && a.storageSize == b.storageSize
    ensures a.scForNFSPvc == b.scForNFSPvc && a.scForNFSProvisioner == b.scForNFSProvisioner
    ensures a.nodeSelector == null <==> b.nodeSelector == null
    ensures a.nodeSelector != null ==> a.nodeSelector.entries == b.nodeSelector.entries
    ensures a.imageConfig == null <==> b.imageConfig == null
    ensures a.imageConfig != null ==> a.imageConfig.Value() == b.imageConfig.Value()
  {
  }

  lemma StatusValueTells(a: ProvisionerStatus, b: ProvisionerStatus)
    requires a.Value() == b.Value()
    ensures a.nodes == null <==> b.nodes == null
    ensures a.nodes != null ==> a.nodes[..] == b.nodes[..]
    ensures a.error == b.error
  {
  }

  lemma ValueTells(a: Provisioner, b: Provisioner)
    requires a.Value() == b.Value()
    ensures a.typeMeta == b.typeMeta && a.spec.Value() == b.spec.Value() && a.status.Value() == b.status.Value()
  {
  }

  /** Nil-ness matters: a copy that turned a nil node selector into an empty one would build another deployment for
      a host path. */
  lemma NilSelectorMatters(n: Objects.CrName, cr: Objects.Cr)
    ensures var nilled := cr.(spec := cr.spec.(nodeSelector := Objects.None));
            var empty := cr.(spec := cr.spec.(nodeSelector := Objects.Some(map[])));
            var storage := Objects.StorageTypeOf(cr.spec);
            Objects.BuildDeployment(n, nilled, storage) == Objects.BuildDeployment(n, empty, storage)
            <==> cr.spec.hostPathDir == ""
  {
    assert "app" in Objects.DEFAULT_NODE_SELECTOR;
  }
}
