/** `PluginManager`: the batch builders over the selected UI plugins, the
    mapping of a scope list to the two scope flags, and the two pieces of
    pure logic inside the upload chain: reading the transfer link out of the
    `Link` header and choosing what to emit once the upload is done. */
module PluginManager {
  import opened Wrappers
  import opened PluginService
  import JsonValue

  /** `forEach` with `push`: one request per plugin, in list order. */
  function ForEachPush(plugins: seq<UiPlugin>, f: UiPlugin -> PluginRequest): (reqs: seq<PluginRequest>)
    ensures |reqs| == |plugins|
    ensures forall i :: 0 <= i < |plugins| ==> reqs[i] == f(plugins[i])
  {
    if |plugins| == 0 then []
    else ForEachPush(plugins[..|plugins| - 1], f) + [f(plugins[|plugins| - 1])]
  }

  /** Building the list for a concatenation is concatenating the lists. */
  lemma ForEachPushOfConcatenation(a: seq<UiPlugin>, b: seq<UiPlugin>, f: UiPlugin -> PluginRequest)
    ensures ForEachPush(a + b, f) == ForEachPush(a, f) + ForEachPush(b, f)
  {
    var l, r := ForEachPush(a + b, f), ForEachPush(a, f) + ForEachPush(b, f);
    forall i | 0 <= i < |l|
      ensures l[i] == r[i]
    {
      if i >= |a| {
        assert (a + b)[i] == b[i - |a|];
      }
    }
  }

  /** `disablePlugins`: a PUT per selected plugin, to that plugin's own id,
      of the plugin with `enabled` cleared. */
  function DisablePlugins(selected: seq<UiPlugin>): (reqs: seq<PluginRequest>)
    ensures |reqs| == |selected|
    ensures forall i :: 0 <= i < |selected| ==>
      reqs[i] == Update(PluginsPath + selected[i].id, selected[i].(enabled := false))
  {
    ForEachPush(selected, (p: UiPlugin) => DisablePlugin(p, p.id))
  }

  /** `enablePlugins` as written: it calls `disablePlugin` for every selected
      plugin, so no request it builds enables anything. */
  function EnablePlugins(selected: seq<UiPlugin>): (reqs: seq<PluginRequest>)
    ensures |reqs| == |selected|
    ensures forall i :: 0 <= i < |selected| ==> reqs[i].Update? && !reqs[i].payload.enabled
  {
    ForEachPush(selected, (p: UiPlugin) => DisablePlugin(p, p.id))
  }

  /** The defect: `enablePlugins` builds exactly the requests `disablePlugins`
      builds, and a disabled plugin sent through it stays disabled. */
  lemma EnablePluginsDisablesEverything(selected: seq<UiPlugin>, p: UiPlugin)
    ensures EnablePlugins(selected) == DisablePlugins(selected)
    ensures !p.enabled ==> EnablePlugins([p]) == [Update(PluginsPath + p.id, p)]
  {
  }

  /** `enablePlugins` as evidently intended: a PUT per selected plugin of the
      plugin with `enabled` set. */
  function EnablePluginsIntended(selected: seq<UiPlugin>): (reqs: seq<PluginRequest>)
    ensures |reqs| == |selected|
    ensures forall i :: 0 <= i < |selected| ==>
      reqs[i] == Update(PluginsPath + selected[i].id, selected[i].(enabled := true))
  {
    ForEachPush(selected, (p: UiPlugin) => EnablePlugin(p, p.id))
  }

  /** The corrected batch is undone by `disablePlugins` on the plugins that
      were disabled, and the two batches target the same URLs. */
  lemma EnableBatchUndoneByDisableBatch(selected: seq<UiPlugin>)
    ensures forall i :: 0 <= i < |selected| ==>
      EnablePluginsIntended(selected)[i].url == DisablePlugins(selected)[i].url
    ensures forall i :: 0 <= i < |selected| && !selected[i].enabled ==>
      DisablePlugin(EnablePluginsIntended(selected)[i].payload, selected[i].id)
        == Update(PluginsPath + selected[i].id, selected[i])
  {
  }

  /** `deletePlugins`: a DELETE per selected plugin, in selection order. */
  function DeletePlugins(selected: seq<UiPlugin>): (reqs: seq<PluginRequest>)
    ensures |reqs| == |selected|
    ensures forall i :: 0 <= i < |selected| ==> reqs[i] == Remove(PluginsPath + selected[i].id)
  {
    ForEachPush(selected, DeletePlugin)
  }

  /** `Array.prototype.indexOf` on strings: the first position, or -1. */
  function IndexOf(xs: seq<string>, x: string): (r: int)
    ensures r == -1 <==> x !in xs
    ensures r != -1 ==> 0 <= r < |xs| && xs[r] == x && x !in xs[..r]
  {
    if |xs| == 0 then -1
    else if xs[0] == x then 0
    else
      var r := IndexOf(xs[1..], x);
      if r == -1 then -1
      else
        assert xs[..r + 1] == [xs[0]] + xs[1..][..r];
        r + 1
  }

  /** The flags `changeScope` derives from a list of scope names. */
  function ScopeFlags(scope: seq<string>): (s: Scope)
    ensures s.serviceProvider == Some("service-provider" in scope)
    ensures s.tenant == Some("tenant" in scope)
  {
    Scope(Some(IndexOf(scope, "service-provider") != -1), Some(IndexOf(scope, "tenant") != -1))
  }

  /** The scope name the doc comment gives as an example, `service-scope`,
      is not one the code recognises: it sets no flag. */
  lemma ServiceScopeNameSetsNoFlag()
    ensures ScopeFlags(["service-scope"]) == Scope(Some(false), Some(false))
    ensures ScopeFlags(["service-scope", "tenant"]) == Scope(Some(false), Some(true))
    ensures ScopeFlags(["service-provider", "tenant"]) == Scope(Some(true), Some(true))
  {
  }

  /** `changeScope(plugins, scope)`: a PUT per plugin of the plugin with both
      scope flags replaced by the scope list's verdicts; the flags depend on
      the list only through membership, so order and repeats do not matter. */
  function ChangeScopes(plugins: seq<UiPlugin>, scope: seq<string>): (reqs: seq<PluginRequest>)
    ensures |reqs| == |plugins|
    ensures forall i :: 0 <= i < |plugins| ==>
      reqs[i] == Update(PluginsPath + plugins[i].id,
                        plugins[i].(providerScoped := Some("service-provider" in scope),
                                    tenantScoped := Some("tenant" in scope)))
  {
    var flags := ScopeFlags(scope);
    ForEachPush(plugins, (p: UiPlugin) => ChangeScope(p, p.id, flags))
  }

  /** Two scope lists with the same members build the same requests. */
  lemma ChangeScopesDependsOnlyOnMembers(plugins: seq<UiPlugin>, s1: seq<string>, s2: seq<string>)
    requires forall x :: x in s1 <==> x in s2
    ensures ChangeScopes(plugins, s1) == ChangeScopes(plugins, s2)
  {
  }

  /** A `>;` starts at position `i` of `s`. */
  predicate LinkEndAt(s: string, i: nat) {
    i + 2 <= |s| && s[i] == '>' && s[i + 1] == ';'
  }

  /** `s.split(">;")[0]`: the text before the first `>;`, or all of `s`. */
  function BeforeLinkEnd(s: string): (r: string)
    ensures r <= s
    ensures forall i: nat :: i < |r| ==> !LinkEndAt(s, i)
    ensures r == s || LinkEndAt(s, |r|)
  {
    if |s| < 2 then s
    else if s[0] == '>' && s[1] == ';' then ""
    else
      var rest := BeforeLinkEnd(s[1..]);
      assert forall i: nat :: 0 < i <= |rest| ==> (LinkEndAt(s, i) <==> LinkEndAt(s[1..], i - 1));
      [s[0]] + rest
  }

  /** The transfer link read from the `Link` header: the text before the
      first `>;` without its first character. A response without a `Link`
      header gives `null`, and calling `split` on it throws. */
  function TransferLink(header: Option<string>): (r: Result<string, JsonValue.TypeError>)
    ensures header.None? <==> r.Failure?
    ensures header.None? ==> r.error == JsonValue.ReadOfNull("split")
    ensures header.Some? && |BeforeLinkEnd(header.value)| == 0 ==> r == Success("")
    ensures header.Some? && |BeforeLinkEnd(header.value)| > 0 ==>
      [header.value[0]] + r.value == BeforeLinkEnd(header.value)
  {
    match header
    case None => Failure(JsonValue.ReadOfNull("split"))
    case Some(h) =>
      var url := BeforeLinkEnd(h);
      Success(if |url| == 0 then "" else url[1..])
  }

  /** For a header `<U>;…` where `U` holds no `>;`, the transfer link is
      exactly `U`. */
  lemma TransferLinkOfBracketedUrl(u: string, rest: string)
    requires forall i: nat :: !LinkEndAt(u, i)
    ensures TransferLink(Some("<" + u + ">;" + rest)) == Success(u)
  {
    var s := "<" + u + ">;" + rest;
    var r := BeforeLinkEnd(s);
    var e := |u| + 1;
    assert LinkEndAt(s, e);
    assert |r| <= e;
    assert forall j: nat :: 0 < j < e ==> !LinkEndAt(s, j) by {
      forall j: nat | 0 < j < e
        ensures !LinkEndAt(s, j)
      {
        assert s[j] == u[j - 1];
        if j < |u| {
          assert s[j + 1] == u[j];
          assert !LinkEndAt(u, j - 1);
        } else {
          assert s[j + 1] == '>';
        }
      }
    }
    assert s[0] == '<';
    assert |r| == e;
    assert r == s[..e];
    assert r[1..] == u;
  }

  /** `ScopeFeedback`: publish to every organisation, or the per-tenant data
      a mixed-scope change needs. The data items are opaque here. */
  datatype ScopeFeedback<D> = ScopeFeedback(forAllOrgs: bool, data: seq<D>)

  /** `ChangeScopePlugin`: the id and name of one plugin. */
  datatype ChangeScopePlugin = ChangeScopePlugin(id: string, pluginName: string)

  /** What the upload observable emits once the plugin file is transferred:
      the publish-for-all request, the mixed-scope request, or `undefined`. */
  datatype UploadEmission<D> =
    | PublishForAllTenants(pluginIds: seq<string>, trackScopeChange: bool)
    | HandleMixedScope(plugins: seq<ChangeScopePlugin>, feedback: ScopeFeedback<D>, trackScopeChange: bool)
    | NextUndefined

  /** The last step of `uploadPlugin`, for the newly registered plugin. */
  function AfterUpload<D>(feedback: ScopeFeedback<D>, id: string, pluginName: string): (e: UploadEmission<D>)
    ensures e.PublishForAllTenants? <==> feedback.forAllOrgs
    ensures e.HandleMixedScope? <==> !feedback.forAllOrgs && |feedback.data| > 0
    ensures e.NextUndefined? <==> !feedback.forAllOrgs && |feedback.data| == 0
    ensures e.PublishForAllTenants? ==> e.pluginIds == [id] && !e.trackScopeChange
    ensures e.HandleMixedScope? ==>
      e.plugins == [ChangeScopePlugin(id, pluginName)] && e.feedback == feedback && !e.trackScopeChange
  {
    if feedback.forAllOrgs then PublishForAllTenants([id], false)
    else if |feedback.data| > 0 then HandleMixedScope([ChangeScopePlugin(id, pluginName)], feedback, false)
    else NextUndefined
  }

  /** Publishing for all organisations takes precedence: the data list is
      then ignored entirely, and so is the plugin's name. */
  lemma ForAllOrgsIgnoresData<D>(d1: seq<D>, d2: seq<D>, id: string, n1: string, n2: string)
    ensures AfterUpload(ScopeFeedback(true, d1), id, n1) == AfterUpload(ScopeFeedback(true, d2), id, n2)
  {
  }
}
