/**
 Subscription filters: what a filter selects, and when an acknowledged filter stays
 inside the requested one (src/McpClient.ts, src/McpDispatcher.ts and the HTTP client
 transport all use these two tests).
 */
module SubscriptionFilters {
  import opened Common

  datatype Filter = Filter(tools: bool, prompts: bool, resources: bool, uris: Option<seq<JsString>>)

  datatype Change = ToolsChanged | PromptsChanged | ResourcesChanged | ResourceUpdated(uri: JsString)

  /** `subscriptionFilterSelects`. */
  predicate Selects(filter: Filter, change: Change) {
    match change
    case ToolsChanged => filter.tools
    case PromptsChanged => filter.prompts
    case ResourcesChanged => filter.resources
    case ResourceUpdated(uri) => filter.uris.Some? && uri in filter.uris.value
  }

  /** `subscriptionFilterSubset`. */
  predicate Subset(acknowledged: Filter, requested: Filter) {
    && (acknowledged.tools ==> requested.tools)
    && (acknowledged.prompts ==> requested.prompts)
    && (acknowledged.resources ==> requested.resources)
    && (acknowledged.uris.Some? ==>
          requested.uris.Some? && forall uri :: uri in acknowledged.uris.value ==> uri in requested.uris.value)
  }

  /** An acknowledged filter selects nothing outside the request; a filter that does so for every change is no larger. */
  lemma SubsetIsSelection(acknowledged: Filter, requested: Filter)
    ensures Subset(acknowledged, requested) ==>
              forall change :: Selects(acknowledged, change) ==> Selects(requested, change)
    ensures (forall change :: Selects(acknowledged, change) ==> Selects(requested, change)) ==>
              Subset(acknowledged, requested) || (acknowledged.uris == Some([]) && requested.uris.None?)
  {
    if forall change :: Selects(acknowledged, change) ==> Selects(requested, change) {
      assert Selects(acknowledged, ToolsChanged) ==> Selects(requested, ToolsChanged);
      assert Selects(acknowledged, PromptsChanged) ==> Selects(requested, PromptsChanged);
      assert Selects(acknowledged, ResourcesChanged) ==> Selects(requested, ResourcesChanged);
      if acknowledged.uris.Some? {
        forall uri | uri in acknowledged.uris.value ensures requested.uris.Some? && uri in requested.uris.value {
          assert Selects(acknowledged, ResourceUpdated(uri)) ==> Selects(requested, ResourceUpdated(uri));
        }
        assert acknowledged.uris.value != [] ==> acknowledged.uris.value[0] in acknowledged.uris.value;
      }
    }
  }

  /** Each part of a filter selects its own change and no other: the three flags, and the URIs by membership. */
  lemma SelectsByPart(filter: Filter)
    ensures forall change ::
              Selects(filter, change) <==>
              || Selects(Filter(filter.tools, false, false, None), change) || Selects(Filter(false, filter.prompts, false, None), change)
              || Selects(Filter(false, false, filter.resources, None), change) || Selects(Filter(false, false, false, filter.uris), change)
    ensures forall change :: Selects(Filter(true, false, false, None), change) <==> change == ToolsChanged
    ensures forall change :: Selects(Filter(false, true, false, None), change) <==> change == PromptsChanged
    ensures forall change :: Selects(Filter(false, false, true, None), change) <==> change == ResourcesChanged
    ensures forall change, uris :: Selects(Filter(false, false, false, Some(uris)), change) <==> change.ResourceUpdated? && change.uri in uris
    ensures forall change :: !Selects(Filter(false, false, false, None), change)
  {
  }
}
