/** `PluginService`: the per-plugin requests against the UI plugin endpoint.
    Each update is a record update of the plugin followed by a PUT of the
    updated record. The source mutates the caller's object in place; here
    the updated copy travels in the request. */
module PluginService {
  import opened Wrappers

  /** A UI plugin as the endpoint returns it: the fields the code reads or
      writes, and the descriptive ones that travel along unchanged. */
  datatype UiPlugin = UiPlugin(
    id: string,
    pluginName: string,
    vendor: string,
    version: string,
    enabled: bool,
    providerScoped: Option<bool>,
    tenantScoped: Option<bool>)

  /** The optional scope flags `changeScope` receives. */
  datatype Scope = Scope(serviceProvider: Option<bool>, tenant: Option<bool>)

  datatype PluginRequest =
    | Fetch(url: string)
    | Update(url: string, payload: UiPlugin)
    | Remove(url: string)

  const PluginsPath := "cloudapi/extensions/ui/"

  /** `getPlugins`. */
  function GetPlugins(): (r: PluginRequest)
    ensures r.Fetch? && r.url == PluginsPath
  {
    Fetch(PluginsPath)
  }

  /** `deletePlugin`: the URL uses the plugin's own id. */
  function DeletePlugin(p: UiPlugin): (r: PluginRequest)
    ensures r.Remove? && r.url == PluginsPath + p.id
  {
    Remove(PluginsPath + p.id)
  }

  /** `disablePlugin(plugin, id)`: clears `enabled`, changes nothing else,
      and targets the `id` argument, whatever the plugin's own id is. */
  function DisablePlugin(p: UiPlugin, id: string): (r: PluginRequest)
    ensures r.Update? && r.url == PluginsPath + id
    ensures !r.payload.enabled
    ensures r.payload.(enabled := p.enabled) == p
  {
    Update(PluginsPath + id, p.(enabled := false))
  }

  /** `enablePlugin(plugin, id)`: sets `enabled`, changes nothing else. */
  function EnablePlugin(p: UiPlugin, id: string): (r: PluginRequest)
    ensures r.Update? && r.url == PluginsPath + id
    ensures r.payload.enabled
    ensures r.payload.(enabled := p.enabled) == p
  {
    Update(PluginsPath + id, p.(enabled := true))
  }

  /** `changeScope(plugin, id, scope)`: copies the two scope flags, which
      may be undefined, and changes nothing else. */
  function ChangeScope(p: UiPlugin, id: string, scope: Scope): (r: PluginRequest)
    ensures r.Update? && r.url == PluginsPath + id
    ensures r.payload.providerScoped == scope.serviceProvider && r.payload.tenantScoped == scope.tenant
    ensures r.payload.(providerScoped := p.providerScoped, tenantScoped := p.tenantScoped) == p
  {
    Update(PluginsPath + id, p.(providerScoped := scope.serviceProvider, tenantScoped := scope.tenant))
  }

  /** Enabling undoes disabling and disabling undoes enabling. */
  lemma EnableAndDisableAreInverse(p: UiPlugin, id: string)
    ensures p.enabled ==> EnablePlugin(DisablePlugin(p, id).payload, id).payload == p
    ensures !p.enabled ==> DisablePlugin(EnablePlugin(p, id).payload, id).payload == p
  {
  }

  /** Changing the scope twice to the same flags is changing it once, and a
      scope change commutes with disabling. */
  lemma ChangeScopeIdempotentAndIndependent(p: UiPlugin, id: string, scope: Scope)
    ensures ChangeScope(ChangeScope(p, id, scope).payload, id, scope) == ChangeScope(p, id, scope)
    ensures ChangeScope(DisablePlugin(p, id).payload, id, scope).payload
         == DisablePlugin(ChangeScope(p, id, scope).payload, id).payload
  {
  }
}
