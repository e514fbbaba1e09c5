/**
 * The `StateStore(...)` factory: which executors a new store gets when the
 * caller leaves them out.  `StateStorePlugins` is the pair of process-wide
 * overrides, passed in as a value read once at construction.
 */
module StateStore {
  import opened Wrappers
  import opened RealStateStore

  datatype Plugins<E> = Plugins(defaultExecutor: Option<E>, defaultCallbackExecutor: Option<E>)

  datatype Executors<E> = Executors(work: E, callback: E)

  function OrElse<E>(o: Option<E>, fallback: E): E
  {
    match o
    case Some(e) => e
    case None => fallback
  }

  /**
   * Default arguments of the factory: the work executor falls back to the
   * plugin override and then to the internal default; the callback
   * executor falls back to the plugin callback override and then to the
   * work executor, whichever way that one was chosen.
   */
  function ResolveExecutors<E>(plugins: Plugins<E>, internalDefault: E, executor: Option<E>, callbackExecutor: Option<E>): (r: Executors<E>)
    ensures executor.Some? ==> r.work == executor.value
    ensures executor.None? && plugins.defaultExecutor.Some? ==> r.work == plugins.defaultExecutor.value
    ensures executor.None? && plugins.defaultExecutor.None? ==> r.work == internalDefault
    ensures callbackExecutor.Some? ==> r.callback == callbackExecutor.value
    ensures callbackExecutor.None? && plugins.defaultCallbackExecutor.Some? ==>
              r.callback == plugins.defaultCallbackExecutor.value
    ensures callbackExecutor.None? && plugins.defaultCallbackExecutor.None? ==> r.callback == r.work
  {
    var work := OrElse(executor, OrElse(plugins.defaultExecutor, internalDefault));
    Executors(work, OrElse(callbackExecutor, OrElse(plugins.defaultCallbackExecutor, work)))
  }

  /** `StateStore(initialState, executor, callbackExecutor)`: a fresh, open, empty store. */
  method NewStateStore<T(==), Id(==), E>(
    initialState: T, plugins: Plugins<E>, internalDefault: E, executor: Option<E>, callbackExecutor: Option<E>
  ) returns (store: Store<T, Id, E>)
    ensures fresh(store) && fresh(store.jobs) && store.Valid()
    ensures var r := ResolveExecutors(plugins, internalDefault, executor, callbackExecutor);
      store.executor == r.work && store.callbackExecutor == r.callback
    ensures store.state == initialState && store.listeners == [] && store.trace == []
    ensures store.executeCalls == 0 && store.callbackExecuteCalls == 0
    ensures !store.closed && store.closeListeners == []
  {
    var r := ResolveExecutors(plugins, internalDefault, executor, callbackExecutor);
    store := new Store(initialState, r.work, r.callback);
  }
}
