/**
 * The scene objects a hierarchy row shows: a GameObject with its Transform
 * and its components. The parent chain and the components never change
 * while a row is drawn; the active flag of a GameObject and the enabled
 * flag of a component are what a click toggles.
 */
module Scene {
  import opened Wrappers
  import opened Engine

  /** The Unity base class that decides whether a component has an enabled flag. */
  datatype ComponentKind = Behaviour | Renderer | Collider | OtherKind

  /** A component's runtime type, compared by identity: two types may share
      a short name. */
  datatype ComponentType = ComponentType(fullName: string, name: string, kind: ComponentKind)

  class Transform {
    const parent: Transform?
    /** GetSiblingIndex() */
    const siblingIndex: nat
    const childCount: nat
    /** The number of ancestors; it bounds every walk up the chain. */
    ghost const depth: nat

    ghost predicate Valid()
      decreases depth
    {
      if parent == null then depth == 0
      else parent.depth + 1 == depth && siblingIndex < parent.childCount && parent.Valid()
    }

    constructor Root(childCount: nat)
      ensures Valid() && parent == null && this.childCount == childCount
    {
      parent := null;
      siblingIndex := 0;
      this.childCount := childCount;
      depth := 0;
    }

    constructor Child(parent: Transform, siblingIndex: nat, childCount: nat)
      requires parent.Valid() && siblingIndex < parent.childCount
      ensures Valid() && this.parent == parent && this.siblingIndex == siblingIndex && this.childCount == childCount
    {
      this.parent := parent;
      this.siblingIndex := siblingIndex;
      this.childCount := childCount;
      depth := parent.depth + 1;
    }
  }

  /** Whether a transform with a parent is not its parent's last child. */
  predicate NotLastChild(t: Transform)
    requires t.parent != null
  {
    t.siblingIndex != t.parent.childCount - 1
  }

  /** The ancestors of t, root first. */
  ghost function Ancestors(t: Transform): (r: seq<Transform>)
    requires t.Valid()
    ensures |r| == t.depth
    decreases t.depth
  {
    if t.parent == null then [] else Ancestors(t.parent) + [t.parent]
  }

  /** The transform on t's path that is k levels below the root. */
  ghost function PathNode(t: Transform, k: nat): (r: Transform)
    requires t.Valid() && k <= t.depth
    ensures r.Valid() && r.depth == k
    decreases t.depth
  {
    if k == t.depth then t else PathNode(t.parent, k)
  }

  /** One flag per ancestor level, root first: whether the path node below
      that level is not the last child. */
  ghost function PathNotLast(t: Transform): seq<bool>
    requires t.Valid()
    decreases t.depth
  {
    if t.parent == null then [] else PathNotLast(t.parent) + [NotLastChild(t)]
  }

  /** Element i of the flags is about the node i + 1 levels below the root,
      so the last one is about t itself; the ancestors are the path nodes
      above t. */
  lemma {:induction false} PathNotLastMeaning(t: Transform)
    requires t.Valid()
    ensures |PathNotLast(t)| == t.depth
    ensures forall k :: 1 <= k <= t.depth ==>
              PathNode(t, k).parent != null && PathNotLast(t)[k - 1] == NotLastChild(PathNode(t, k))
    ensures forall k :: 0 <= k < t.depth ==> Ancestors(t)[k] == PathNode(t, k)
    decreases t.depth
  {
    if t.parent != null {
      PathNotLastMeaning(t.parent);
      forall k | 1 <= k <= t.depth
        ensures PathNode(t, k).parent != null && PathNotLast(t)[k - 1] == NotLastChild(PathNode(t, k))
      {
        if k < t.depth {
          assert PathNode(t, k) == PathNode(t.parent, k);
        }
      }
      forall k | 0 <= k < t.depth
        ensures Ancestors(t)[k] == PathNode(t, k)
      {
        if k + 1 == t.depth {
          assert PathNode(t.parent, k) == t.parent;
        }
      }
    }
  }

  class Component {
    const componentType: ComponentType
    /** Behaviour.enabled, Renderer.enabled or Collider.enabled. */
    var enabled: bool
    /** AssetPreview.GetMiniThumbnail of this component. */
    const miniThumbnail: Option<Texture>

    constructor (componentType: ComponentType, enabled: bool, miniThumbnail: Option<Texture>)
      ensures this.componentType == componentType && this.enabled == enabled && this.miniThumbnail == miniThumbnail
    {
      this.componentType := componentType;
      this.enabled := enabled;
      this.miniThumbnail := miniThumbnail;
    }
  }

  class GameObject {
    var activeSelf: bool
    const name: string
    const transform: Transform
    /** GetComponents<Component>(), Transform first; null is a missing script. */
    const components: seq<Component?>
    const layer: int
    /** LayerMask.LayerToName(layer) */
    const layerName: string
    const tag: string
    /** What the editor's GetIconForObject returns for this object. */
    const customIcon: Option<Texture>

    constructor (activeSelf: bool, name: string, transform: Transform, components: seq<Component?>,
                 layer: int, layerName: string, tag: string, customIcon: Option<Texture>)
      ensures this.activeSelf == activeSelf && this.name == name && this.transform == transform
      ensures this.components == components && this.layer == layer && this.layerName == layerName
      ensures this.tag == tag && this.customIcon == customIcon
    {
      this.activeSelf := activeSelf;
      this.name := name;
      this.transform := transform;
      this.components := components;
      this.layer := layer;
      this.layerName := layerName;
      this.tag := tag;
      this.customIcon := customIcon;
    }
  }

  /** Only behaviours, renderers and colliders have an enabled flag. */
  predicate IsComponentToggleable(c: Component?) {
    c != null && c.componentType.kind != OtherKind
  }

  /** A component without an enabled flag always reads as enabled. */
  function IsComponentEnabled(c: Component?): bool
    reads c
  {
    if !IsComponentToggleable(c) then true else c.enabled
  }

  method SetComponentEnabled(c: Component?, enabled: bool)
    modifies c
    ensures IsComponentToggleable(c) ==> c.enabled == enabled && IsComponentEnabled(c) == enabled
    ensures c != null && !IsComponentToggleable(c) ==> c.enabled == old(c.enabled) && IsComponentEnabled(c)
  {
    if !IsComponentToggleable(c) {
      return;
    }
    c.enabled := enabled;
  }
}
