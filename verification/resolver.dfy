/** The fallback policy of `loadConfig`: keep what is already loaded, else
    adopt the cached copy, else fall back to the built-in defaults. */
module Resolver {
  import opened Types
  import opened Storage
  import opened Defaults

  /** The state `loadConfig` leaves behind, from the state before it and the
      `storeConfig` slot of local storage. The remote load it starts is not
      awaited, so on this pass the state is still the one before. */
  function Resolved(state: Config, saved: Slot<Config>): (r: Config)
    // the result is always usable
    ensures !r.IsEmpty()
    // a populated state is never overwritten by the cache
    ensures !state.IsEmpty() ==> r == state
    // the cache is adopted exactly when the state is empty and the cache parses to a populated object
    ensures state.IsEmpty() && saved.Parsed? && !saved.value.IsEmpty() ==> r == saved.value
    // otherwise (no cache, corrupt cache, or a cache of `{}`) the defaults
    ensures state.IsEmpty() && !(saved.Parsed? && !saved.value.IsEmpty()) ==> r == DefaultConfig()
  {
    var afterCache := if saved.Parsed? && state.IsEmpty() then saved.value else state;
    if afterCache.IsEmpty() then DefaultConfig() else afterCache
  }

  /** A second `loadConfig` changes nothing, whatever the cache holds by then. */
  lemma ResolvedIsStable(state: Config, saved: Slot<Config>, later: Slot<Config>)
    ensures Resolved(Resolved(state, saved), later) == Resolved(state, saved)
  {
  }

  /** What `saveConfig` stores is what the next page load adopts from the cache. */
  lemma SavedConfigIsAdopted(config: Config)
    requires !config.IsEmpty()
    ensures Resolved(EmptyConfig, Parsed(config)) == config
  {
  }
}
