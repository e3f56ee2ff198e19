/**
 * A model of the pre-setup cache of vue-presetup (src/index.ts).
 *
 * The library keeps one module-level `Map<string, VNode>`. `preSetupComponent`
 * builds a render node for a named component, mounts it into a detached
 * container, marks it kept-alive and stores it under the component's name;
 * the render function of `PreSetupView` either swaps a cached node in place
 * of its placeholder (consuming the entry) or passes the placeholder through.
 *
 * The Vue objects are abstract values. The framework primitives `h` and
 * `render` are black boxes: the model receives, as a parameter, the shape
 * flag the node carries when the library sets the kept-alive bit, and the
 * identity of the promise whose `resolve` and `reject` go into the props.
 */
module PreSetup {
  import opened Wrappers

  /** Identity of the promise created by one `preSetupComponent` call. */
  type PromiseId = nat

  /**
   * A component descriptor. Only `name` is inspected by the library;
   * `definition` stands for everything else about the component.
   */
  datatype Component = Component(name: Option<string>, definition: nat)

  /** The `resolve` and the `reject` function handed to a promise executor. */
  datatype Settler = Resolve(promise: PromiseId) | Reject(promise: PromiseId)

  /** The `PreSetupPromiseProp` record placed in the props of a pre-set-up node. */
  datatype PreSetupPromiseProp = PreSetupPromiseProp(resolve: Settler, reject: Settler)

  /** A prop value: the pre-setup record, or anything else (opaque). */
  datatype PropValue = PromiseProp(settlers: PreSetupPromiseProp) | OtherProp(token: nat)

  /**
   * A render node: the component it instantiates, its shape flag (the 32-bit
   * pattern JavaScript's bitwise operators act on) and its props.
   */
  datatype Node = Node(typ: Component, shapeFlag: bv32, props: map<string, PropValue>)

  /** The prop under which a pre-set-up node carries its promise's settlers. */
  const PreSetupPromiseKey: string := "preSetupPromise"

  /** Bit 9 of the shape flag: the framework's kept-alive marker (value 512). */
  const KeptAlive: bv32 := 0x200

  /** The result of the view's render function together with the cache it leaves. */
  datatype ViewOutcome = ViewOutcome(output: Option<Node>, cache: map<string, Node>)

  /** Which of its three answers the view's render function gives. */
  datatype Decision = RenderNothing | PassThrough | TakeCached(name: string)

  /**
   * The name of a component as the library tests it: `!component.name` treats
   * an absent name and the empty string alike.
   */
  function NameOf(c: Component): (r: Option<string>)
    ensures r.Some? <==> c.name.Some? && c.name.value != ""
    ensures r.Some? ==> r == c.name && r.value != ""
  {
    match c.name
    case None => None
    case Some(n) => if n == "" then None else Some(n)
  }

  /** The name of the placeholder's component, when there is a placeholder. */
  function PlaceholderName(placeholder: Option<Node>): Option<string> {
    match placeholder
    case None => None
    case Some(p) => NameOf(p.typ)
  }

  /** `flag | 1 << 9`: sets the kept-alive bit and leaves every other bit alone. */
  function KeepAlive(flag: bv32): (r: bv32)
    ensures r & KeptAlive == KeptAlive
    ensures r & !KeptAlive == flag & !KeptAlive
  {
    flag | KeptAlive
  }

  /** The pre-setup record stored in a node's props, if there is one. */
  function PromiseOf(n: Node): Option<PreSetupPromiseProp> {
    if PreSetupPromiseKey in n.props && n.props[PreSetupPromiseKey].PromiseProp? then
      Some(n.props[PreSetupPromiseKey].settlers)
    else
      None
  }

  /**
   * The node `preSetupComponent` stores: an instance of `component` whose only
   * prop is the promise's own settlers, with the kept-alive bit set on top of
   * the flag the framework gave it.
   */
  function NewNode(component: Component, promise: PromiseId, flagAfterMount: bv32): (r: Node)
    ensures r.typ == component
    ensures r.shapeFlag & KeptAlive == KeptAlive
    ensures r.shapeFlag & !KeptAlive == flagAfterMount & !KeptAlive
    ensures r.props.Keys == {PreSetupPromiseKey}
    ensures PromiseOf(r) == Some(PreSetupPromiseProp(Resolve(promise), Reject(promise)))
  {
    var settlers := PreSetupPromiseProp(Resolve(promise), Reject(promise));
    Node(component, KeepAlive(flagAfterMount), map[PreSetupPromiseKey := PromiseProp(settlers)])
  }

  /**
   * The cache after `preSetupComponent(component)`: unchanged for an unnamed
   * component, otherwise the new node under the name, overwriting any entry.
   * The mount is taken not to call back into the library, so the cache the
   * node is stored into is the cache at entry.
   */
  function AfterPreSetup(cache: map<string, Node>, component: Component, promise: PromiseId,
                         flagAfterMount: bv32): (r: map<string, Node>)
    ensures NameOf(component).None? ==> r == cache
    ensures NameOf(component).Some? ==>
      var name := NameOf(component).value;
      && r.Keys == cache.Keys + {name}
      && r[name] == NewNode(component, promise, flagAfterMount)
      && (forall k :: k in cache && k != name ==> r[k] == cache[k])
      && |r| == if name in cache then |cache| else |cache| + 1
  {
    match NameOf(component)
    case None => cache
    case Some(name) => cache[name := NewNode(component, promise, flagAfterMount)]
  }

  /** The decision table of the view's render function. */
  function Decide(placeholder: Option<Node>, cache: map<string, Node>): (d: Decision)
    ensures d.RenderNothing? <==> placeholder.None?
    ensures d.PassThrough? <==>
      placeholder.Some? && (PlaceholderName(placeholder).None? || PlaceholderName(placeholder).value !in cache)
    ensures d.TakeCached? <==>
      PlaceholderName(placeholder).Some? && PlaceholderName(placeholder).value in cache
    ensures d.TakeCached? ==> PlaceholderName(placeholder) == Some(d.name)
  {
    match placeholder
    case None => RenderNothing
    case Some(p) =>
      match NameOf(p.typ)
      case None => PassThrough
      case Some(name) => if name in cache then TakeCached(name) else PassThrough
  }

  /**
   * One render of the view: what it returns and the cache it leaves. It never
   * adds or alters an entry; it removes at most the placeholder's own name,
   * and only when it returns that entry's node.
   */
  function ViewRender(placeholder: Option<Node>, cache: map<string, Node>): (r: ViewOutcome)
    ensures r.output.None? <==> placeholder.None?
    ensures r.cache.Keys <= cache.Keys
    ensures forall k :: k in r.cache ==> r.cache[k] == cache[k]
    ensures PlaceholderName(placeholder).Some? && PlaceholderName(placeholder).value in cache ==>
      var name := PlaceholderName(placeholder).value;
      r.output == Some(cache[name]) && r.cache == cache - {name}
    ensures !(PlaceholderName(placeholder).Some? && PlaceholderName(placeholder).value in cache) ==>
      r.output == placeholder && r.cache == cache
  {
    match Decide(placeholder, cache)
    case RenderNothing => ViewOutcome(None, cache)
    case PassThrough => ViewOutcome(placeholder, cache)
    case TakeCached(name) => ViewOutcome(Some(cache[name]), cache - {name})
  }

  /**
   * What holds of every cached entry: it is keyed by its own component's name,
   * it carries the kept-alive bit and it carries a pre-setup record.
   */
  predicate CacheInvariant(cache: map<string, Node>) {
    forall k :: k in cache ==>
      && NameOf(cache[k].typ) == Some(k)
      && cache[k].shapeFlag & KeptAlive == KeptAlive
      && PromiseOf(cache[k]).Some?
  }

  /** The module's state: the `cache` Map shared by both operations. */
  class PreSetupModule {
    var cache: map<string, Node>

    ghost predicate Valid()
      reads this
    {
      CacheInvariant(cache)
    }

    /** The module as loaded: an empty cache. */
    constructor ()
      ensures Valid() && cache == map[]
    {
      cache := map[];
    }

    /**
     * `preSetupComponent(component)`. `warned` stands for the console warning
     * given to an unnamed component, which leaves the cache alone. The call
     * does not settle its promise itself; the framework calls are taken not
     * to throw (a throw would reject it and leave the cache unchanged).
     */
    method PreSetupComponent(component: Component, promise: PromiseId, flagAfterMount: bv32)
      returns (warned: bool)
      requires Valid()
      modifies this
      ensures Valid()
      ensures warned <==> NameOf(component).None?
      ensures cache == AfterPreSetup(old(cache), component, promise, flagAfterMount)
    {
      if component.name.None? || component.name.value == "" {
        warned := true;
        return;
      }
      warned := false;
      var name := component.name.value;
      var settlers := PreSetupPromiseProp(Resolve(promise), Reject(promise));
      var vnode := Node(component, flagAfterMount, map[PreSetupPromiseKey := PromiseProp(settlers)]);
      vnode := vnode.(shapeFlag := vnode.shapeFlag | KeptAlive);
      assert vnode == NewNode(component, promise, flagAfterMount);
      cache := cache[name := vnode];
    }

    /** The render function of `PreSetupView`, given its `component` prop. */
    method RenderView(placeholder: Option<Node>) returns (output: Option<Node>)
      requires Valid()
      modifies this
      ensures Valid()
      ensures ViewOutcome(output, cache) == ViewRender(placeholder, old(cache))
    {
      if placeholder.None? {
        return None;
      }
      var component := placeholder.value;
      var name := component.typ.name;
      if name.None? || name.value == "" {
        return placeholder;
      }
      if name.value in cache {
        var vnode := cache[name.value];
        cache := cache - {name.value};
        return Some(vnode);
      } else {
        return placeholder;
      }
    }
  }
}
