/**
 * Properties of the pre-setup cache that relate several calls: overwriting,
 * swapping a pre-set-up node in, consuming an entry once, and what holds over
 * any sequence of calls to `preSetupComponent` and the view's render function.
 */
module PreSetupProperties {
  import opened Wrappers
  import opened PreSetup

  /**
   * Two pre-setups under one name, possibly of different components, leave the
   * cache the second alone would have left: the second node, one entry.
   */
  lemma LastWriteWins(cache: map<string, Node>, first: Component, p1: PromiseId, f1: bv32,
                      second: Component, p2: PromiseId, f2: bv32)
    requires NameOf(first).Some? && NameOf(first) == NameOf(second)
    ensures AfterPreSetup(AfterPreSetup(cache, first, p1, f1), second, p2, f2)
            == AfterPreSetup(cache, second, p2, f2)
  {
  }

  /** Both operations keep the cache invariant. */
  lemma PreSetupKeepsInvariant(cache: map<string, Node>, component: Component, promise: PromiseId, flag: bv32)
    requires CacheInvariant(cache)
    ensures CacheInvariant(AfterPreSetup(cache, component, promise, flag))
  {
  }

  lemma ViewKeepsInvariant(cache: map<string, Node>, placeholder: Option<Node>)
    requires CacheInvariant(cache)
    ensures CacheInvariant(ViewRender(placeholder, cache).cache)
  {
  }

  /**
   * Over a cache that keeps its invariant, the view always renders a node
   * whose component has the placeholder's name, and a node it swaps in is
   * one that the framework keeps alive and that carries a pre-setup record.
   */
  lemma SwapKeepsComponentName(cache: map<string, Node>, placeholder: Node)
    requires CacheInvariant(cache)
    ensures var r := ViewRender(Some(placeholder), cache);
      && r.output.Some?
      && NameOf(r.output.value.typ) == NameOf(placeholder.typ)
      && (Decide(Some(placeholder), cache).TakeCached? ==>
            && r.output.value.shapeFlag & KeptAlive == KeptAlive
            && PromiseOf(r.output.value).Some?)
      && (Decide(Some(placeholder), cache).PassThrough? ==> r.output.value == placeholder)
  {
  }

  /**
   * Pre-setting a component up and then rendering a placeholder of the same
   * name yields exactly the pre-set-up node and drops the name from the cache;
   * a second render of that placeholder passes it through untouched.
   */
  lemma PreSetupThenSwapOnce(cache: map<string, Node>, component: Component, promise: PromiseId,
                             flag: bv32, placeholder: Node)
    requires NameOf(component).Some? && NameOf(placeholder.typ) == NameOf(component)
    ensures var first := ViewRender(Some(placeholder), AfterPreSetup(cache, component, promise, flag));
      && first.output == Some(NewNode(component, promise, flag))
      && first.cache == cache - {NameOf(component).value}
      && ViewRender(Some(placeholder), first.cache) == ViewOutcome(Some(placeholder), first.cache)
  {
  }

  // ---------------------------------------------------------------------------
  // Sequences of calls

  /** One call into the library. */
  datatype Call =
    | PreSetupCall(component: Component, promise: PromiseId, flagAfterMount: bv32)
    | ViewCall(placeholder: Option<Node>)

  function Step(cache: map<string, Node>, call: Call): map<string, Node> {
    match call
    case PreSetupCall(c, p, f) => AfterPreSetup(cache, c, p, f)
    case ViewCall(placeholder) => ViewRender(placeholder, cache).cache
  }

  /** The cache after `calls`, made in order, starting from `cache`. */
  function Run(cache: map<string, Node>, calls: seq<Call>): map<string, Node>
    decreases |calls|
  {
    if calls == [] then cache else Run(Step(cache, calls[0]), calls[1..])
  }

  /** Whether `call`, made on `cache`, swaps in the entry under `name`. */
  predicate TakesName(cache: map<string, Node>, call: Call, name: string) {
    call.ViewCall? && Decide(call.placeholder, cache) == TakeCached(name)
  }

  /** How many of `calls` swap in the entry under `name`. */
  function Takes(cache: map<string, Node>, calls: seq<Call>, name: string): nat
    decreases |calls|
  {
    if calls == [] then 0
    else (if TakesName(cache, calls[0], name) then 1 else 0) + Takes(Step(cache, calls[0]), calls[1..], name)
  }

  /** How many of `calls` pre-set-up a component named `name`. */
  function PreSetups(calls: seq<Call>, name: string): nat
    decreases |calls|
  {
    if calls == [] then 0
    else (if calls[0].PreSetupCall? && NameOf(calls[0].component) == Some(name) then 1 else 0)
         + PreSetups(calls[1..], name)
  }

  lemma {:induction false} RunAppend(cache: map<string, Node>, a: seq<Call>, b: seq<Call>)
    ensures Run(cache, a + b) == Run(Run(cache, a), b)
    decreases |a|
  {
    if a == [] {
      assert a + b == b;
    } else {
      assert (a + b)[1..] == a[1..] + b;
      RunAppend(Step(cache, a[0]), a[1..], b);
    }
  }

  /** Every cache reachable from one that keeps the invariant keeps it too. */
  lemma {:induction false} RunKeepsInvariant(cache: map<string, Node>, calls: seq<Call>)
    requires CacheInvariant(cache)
    ensures CacheInvariant(Run(cache, calls))
    decreases |calls|
  {
    if calls != [] {
      match calls[0] {
        case PreSetupCall(c, p, f) => PreSetupKeepsInvariant(cache, c, p, f);
        case ViewCall(placeholder) => ViewKeepsInvariant(cache, placeholder);
      }
      RunKeepsInvariant(Step(cache, calls[0]), calls[1..]);
    }
  }

  /**
   * Consume at most once: along any sequence of calls, the swaps of `name`
   * plus a still-cached entry never outnumber the pre-setups of `name` plus
   * the entry there was at the start.
   */
  lemma {:induction false} ConsumeAtMostOnce(cache: map<string, Node>, calls: seq<Call>, name: string)
    ensures Takes(cache, calls, name) + (if name in Run(cache, calls) then 1 else 0)
            <= PreSetups(calls, name) + (if name in cache then 1 else 0)
    decreases |calls|
  {
    if calls != [] {
      ConsumeAtMostOnce(Step(cache, calls[0]), calls[1..], name);
    }
  }

  /** Starting from the empty cache, a name never pre-set-up is never swapped in. */
  lemma NoSwapWithoutPreSetup(calls: seq<Call>, name: string)
    requires PreSetups(calls, name) == 0
    ensures Takes(map[], calls, name) == 0 && name !in Run(map[], calls)
  {
    ConsumeAtMostOnce(map[], calls, name);
  }

  /** Calls that neither pre-set-up nor swap in `name` leave its entry as it was. */
  lemma {:induction false} UntouchedEntry(cache: map<string, Node>, calls: seq<Call>, name: string)
    requires PreSetups(calls, name) == 0 && Takes(cache, calls, name) == 0
    ensures name in Run(cache, calls) <==> name in cache
    ensures name in cache ==> Run(cache, calls)[name] == cache[name]
    decreases |calls|
  {
    if calls != [] {
      UntouchedEntry(Step(cache, calls[0]), calls[1..], name);
    }
  }

  /**
   * Last write wins over a whole history: after the last pre-setup of `name`,
   * as long as nothing swaps it in, the cache holds exactly that node.
   */
  lemma LastPreSetupWins(cache: map<string, Node>, before: seq<Call>, component: Component,
                         promise: PromiseId, flag: bv32, after: seq<Call>)
    requires NameOf(component).Some?
    requires PreSetups(after, NameOf(component).value) == 0
    requires Takes(AfterPreSetup(Run(cache, before), component, promise, flag), after, NameOf(component).value) == 0
    ensures var final := Run(cache, before + [PreSetupCall(component, promise, flag)] + after);
      NameOf(component).value in final && final[NameOf(component).value] == NewNode(component, promise, flag)
  {
    var name := NameOf(component).value;
    var call := PreSetupCall(component, promise, flag);
    var mid := AfterPreSetup(Run(cache, before), component, promise, flag);
    RunAppend(cache, before + [call], after);
    RunAppend(cache, before, [call]);
    assert Run(Run(cache, before), [call]) == mid;
    UntouchedEntry(mid, after, name);
  }
}
