/** The feature loader's reducer registry: features contribute named
    reducers one hook at a time, and `init` registers the registry, combined
    into one reducer, in the store under the plugin's namespace. Reducers are
    opaque values of type `R`; the namespace is a parameter. */
module Reducers {

  /** The registry: reducer name to reducer. */
  type Registry<R> = map<string, R>

  /** A store slice: the combined reducer built from a registry snapshot, or
      a reducer the store already had. */
  datatype Slice<R> = Combined(parts: Registry<R>) | Foreign(reducer: R)

  /** The store as `init` sees it: whether it offers `addReducer`, and its
      reducers by namespace. */
  datatype Store<R> = Store(canAddReducer: bool, slices: map<string, Slice<R>>)

  /** `addHook`: the hook's reducers are spread over the registry, so its
      names are added and, where a name was already taken, its reducer wins. */
  function AddHook<R>(registry: Registry<R>, contribution: Registry<R>): (r: Registry<R>)
    ensures r.Keys == registry.Keys + contribution.Keys
    ensures forall k :: k in contribution ==> r[k] == contribution[k]
    ensures forall k :: k in registry && k !in contribution ==> r[k] == registry[k]
  {
    registry + contribution
  }

  /** Registering the same contribution again changes nothing. */
  lemma AddHookIdempotent<R>(registry: Registry<R>, contribution: Registry<R>)
    ensures AddHook(AddHook(registry, contribution), contribution) == AddHook(registry, contribution)
  {
  }

  /** The registry after the hooks of a sequence of features, in load order,
      starting from the empty registry. */
  function RegistryOf<R>(hooks: seq<Registry<R>>): (r: Registry<R>)
    ensures forall i :: 0 <= i < |hooks| ==> hooks[i].Keys <= r.Keys
    ensures |hooks| > 0 ==> forall k :: k in hooks[|hooks| - 1] ==> r[k] == hooks[|hooks| - 1][k]
  {
    if |hooks| == 0 then map[] else AddHook(RegistryOf(hooks[..|hooks| - 1]), hooks[|hooks| - 1])
  }

  /** Later features win: a name is registered exactly when some feature
      contributed it, and it maps to the reducer of the last feature that did. */
  lemma {:induction false} LastContributionWins<R>(hooks: seq<Registry<R>>, k: string)
    ensures k in RegistryOf(hooks) <==> exists i :: 0 <= i < |hooks| && k in hooks[i]
    ensures forall i :: 0 <= i < |hooks| && k in hooks[i]
                        && (forall j :: i < j < |hooks| ==> k !in hooks[j]) ==>
                        RegistryOf(hooks)[k] == hooks[i][k]
  {
    if |hooks| > 0 {
      var n := |hooks| - 1;
      var front := hooks[..n];
      LastContributionWins(front, k);
      if k in RegistryOf(front) {
        var i :| 0 <= i < |front| && k in front[i];
        assert k in hooks[i];
      }
      forall i | 0 <= i < |hooks| && k in hooks[i] && (forall j :: i < j < |hooks| ==> k !in hooks[j])
        ensures RegistryOf(hooks)[k] == hooks[i][k]
      {
        if i < n {
          assert k !in hooks[n];
          assert front[i] == hooks[i];
          forall j | i < j < |front| ensures k !in front[j] {
            assert front[j] == hooks[j];
          }
        }
      }
    }
  }

  /** `init`: without `addReducer` the store is left as it is; otherwise the
      registry, as it stands now, is combined and registered under the
      namespace. The store's `addReducer` belongs to the framework; it is
      modelled as an update of the store's reducer map at that one key, which
      is why no other namespace is touched. */
  function Init<R>(store: Store<R>, namespace: string, registry: Registry<R>): (r: Store<R>)
    ensures !store.canAddReducer ==> r == store
    ensures store.canAddReducer ==>
      && r.canAddReducer
      && r.slices.Keys == store.slices.Keys + {namespace}
      && r.slices[namespace] == Combined(registry)
      && forall ns :: ns in store.slices && ns != namespace ==> r.slices[ns] == store.slices[ns]
  {
    if !store.canAddReducer then store
    else Store(true, store.slices[namespace := Combined(registry)])
  }

  /** The loader's module state: the registry and the store. */
  datatype Loader<R> = Loader(registry: Registry<R>, store: Store<R>)

  /** The loader's operations, in the order the features call them. */
  datatype Step<R> = Hook(contribution: Registry<R>) | InitStore

  function Apply<R>(l: Loader<R>, namespace: string, step: Step<R>): Loader<R> {
    match step
    case Hook(c) => Loader(AddHook(l.registry, c), l.store)
    case InitStore => Loader(l.registry, Init(l.store, namespace, l.registry))
  }

  function Run<R>(l: Loader<R>, namespace: string, steps: seq<Step<R>>): Loader<R>
    decreases |steps|
  {
    if |steps| == 0 then l else Run(Apply(l, namespace, steps[0]), namespace, steps[1..])
  }

  /** `init` takes a snapshot: hooks that run after it grow the registry but
      leave the store, and the combined reducer in it, as `init` left them. */
  lemma {:induction false} InitSnapshot<R>(l: Loader<R>, namespace: string, hooks: seq<Registry<R>>)
    requires l.store.canAddReducer
    ensures var after := Run(l, namespace, [InitStore] + seq(|hooks|, i requires 0 <= i < |hooks| => Hook(hooks[i])));
      && after.store == Init(l.store, namespace, l.registry)
      && after.store.slices[namespace] == Combined(l.registry)
  {
    var steps := seq(|hooks|, i requires 0 <= i < |hooks| => Hook(hooks[i]));
    var l1 := Apply(l, namespace, InitStore);
    assert ([InitStore] + steps)[1..] == steps;
    HooksKeepStore(l1, namespace, steps);
  }

  /** Steps that are all hooks never change the store. This holds by the
      model's construction: `Apply` passes the store through unchanged on a
      hook step, because `addHook` only reassigns the module's registry
      variable and never calls into the store. */
  lemma {:induction false} HooksKeepStore<R>(l: Loader<R>, namespace: string, steps: seq<Step<R>>)
    requires forall i :: 0 <= i < |steps| ==> steps[i].Hook?
    ensures Run(l, namespace, steps).store == l.store
    decreases |steps|
  {
    if |steps| > 0 {
      HooksKeepStore(Apply(l, namespace, steps[0]), namespace, steps[1..]);
    }
  }
}
