/** Delegate resolution (internal/pkg/parser/virtualservice.go). */
module VirtualServices {
  import opened Errors
  import opened Networking

  /** A VirtualService answers to a delegate: same name, and same namespace unless the delegate leaves it empty. */
  predicate Answers(delegate: Delegate, vs: VirtualService) {
    vs.name == delegate.name && (delegate.namespace == "" || vs.namespace == delegate.namespace)
  }

  /**
   * `GetDelegatedVirtualService`: the first VirtualService, in list order, that
   * answers to the delegate; a same-name VirtualService in another namespace is
   * skipped and the search goes on. When none answers, the error names the delegate.
   */
  function GetDelegatedVirtualService(delegate: Delegate, virtualServices: seq<VirtualService>): (r: Result<VirtualService>)
    ensures r.Ok? ==> exists i | 0 <= i < |virtualServices| ::
      && virtualServices[i] == r.value
      && Answers(delegate, virtualServices[i])
      && forall j | 0 <= j < i :: !Answers(delegate, virtualServices[j])
    ensures r.Err? <==> forall i | 0 <= i < |virtualServices| :: !Answers(delegate, virtualServices[i])
    ensures r.Err? ==> r.error == VirtualServiceNotFound(delegate.name)
  {
    if virtualServices == [] then Err(VirtualServiceNotFound(delegate.name))
    else
      var vs := virtualServices[0];
      if vs.name == delegate.name && !(delegate.namespace != "" && vs.namespace != delegate.namespace) then Ok(vs)
      else
        GetDelegatedVirtualService(delegate, virtualServices[1..])
  }

  /** With an empty namespace the lookup is by name alone: the first VirtualService of that name wins. */
  lemma EmptyNamespaceMatchesByName(name: string, virtualServices: seq<VirtualService>, i: nat)
    requires i < |virtualServices| && virtualServices[i].name == name
    requires forall j | 0 <= j < i :: virtualServices[j].name != name
    ensures GetDelegatedVirtualService(Delegate(name, ""), virtualServices) == Ok(virtualServices[i])
  {
  }
}
