/** Step 1 of the wizard: choose single or album, then create the draft release. */
module Step1Format {
  import opened Common
  import opened ReleaseStore

  method HandleSelect(store: Store, t: ReleaseType)
    modifies store
    ensures store.State() == old(store.State()).(releaseType := Some(t))
  {
    store.SetType(t);
  }

  /** The Next control is disabled while no format is chosen. */
  predicate NextDisabled(s: StoreState) {
    s.releaseType.None?
  }

  /** `handleNext`: with no type chosen nothing happens. Otherwise the type's name is posted,
      and `reply` is the id the server answered with, or `None` when the request failed. The
      draft id and step 2 are stored only on success. */
  method HandleNext(store: Store, reply: Option<int>) returns (request: Option<string>)
    modifies store
    ensures request.Some? <==> !NextDisabled(old(store.State()))
    ensures old(store.releaseType).None? ==> request.None? && store.State() == old(store.State())
    ensures old(store.releaseType).Some? ==> request == Some(TypeName(old(store.releaseType).value))
    ensures old(store.releaseType).Some? && reply.Some? ==>
      store.State() == old(store.State()).(releaseId := Some(reply.value), step := 2)
    ensures reply.None? ==> store.State() == old(store.State())
  {
    if store.releaseType.None? {
      return None;
    }
    request := Some(TypeName(store.releaseType.value));
    if reply.Some? {
      store.SetReleaseId(reply.value);
      store.SetStep(2);
    }
  }
}
