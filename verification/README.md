# Plugin lifecycle UI: a Dafny model of its pure logic

The plugin-lifecycle front-end of the vCloud Director extension SDK manages
two kinds of extension:

- **API extension services.** It lists them and enables, disables and deletes them in batches.
- **UI plugins.** It enables, disables, deletes and re-scopes them, and uploads new ones.

Under the Angular and HTTP glue sit a handful of small, deterministic
procedures. This project models them as immutable datatypes and pure functions,
and proves what they promise.

| file | module | models |
|---|---|---|
| `wrappers.dfy` | `Wrappers` | `Option` and `Result` |
| `json_value.dfy` | `JsonValue` | the dynamically shaped values the code builds, with JavaScript truthiness and property reads and writes |
| `xml_helper.dfy` | `XmlHelper` | `XMLHelper.xmlToJson`, the recursive XML-tree-to-value conversion |
| `api_extension_service.dfy` | `ApiExtensionService` | listing normalisation and the enable, disable and delete requests |
| `api_extensions_component.dfy` | `ApiExtensionsComponent` | selection flags and the confirm-then-filter flows `onEnable`, `onDisable` and `onDelete` |
| `plugin_service.dfy` | `PluginService` | per-plugin record updates and their URLs |
| `plugin_manager.dfy` | `PluginManager` | per-selection batches, scope flags, the `Link` header and the post-upload decision |
| `object_helpers.dfy` | `ObjectHelpers` | `createStringEnum` and `renameProp` |

Modelling choices:

- **Parsing.** `JSON.parse` is an uninterpreted parameter `parse: string -> Option<Value>`, where `None` means the parse threw.
- **Numbers.** JSON numbers are `real`. Only whether a number is zero ever matters, through truthiness.
- **Objects.** A JavaScript object is an ordered list of key/value pairs, because the insertion order of non-index keys is observable in the converted value. XML names cannot start with a digit, so no key built here is an index key.
- **Exceptions.** A `TypeError` the code would throw is a `Failure`. Reading a property of `null` or of `undefined` is one such error. So is calling something that is not a function.
- **Dialogs and outcomes.** Modal answers are boolean inputs. The built requests are outputs, batch by batch and in order.

Several of the system's behaviours are easy to assume but differ from what
the code does. The model follows the code:

- **Text nodes.** A text node's value is handed to `JSON.parse` as it is, without trimming whitespace.
- **Empty selection.** `onEnable` and `onDisable` ask "Are you sure" before they look at an empty selection. An empty selection therefore still shows the dialog, and it closes only after the answer.
- **Enabling plugins.** `PluginService.enablePlugin` does set `enabled` to true. The defect is in `PluginManager.enablePlugins`, which calls `disablePlugin` (see Findings).
- **No serialiser.** The core has no value-to-XML serialiser. No round trip through XML is stated, because there is nothing to compose the conversion with.

## Model

| member | source | states |
|---|---|---|
| JsonValue.Lookup | ui/plugin-lifecycle/src/main/classes/xml-helper.ts:33 | a property read is defined exactly for the object's keys and returns the value stored under the key |
| JsonValue.Assign | ui/plugin-lifecycle/src/main/classes/xml-helper.ts:14-16 | a property write makes the key read back the new value; every other key reads as before; the key set grows by that key only; keys stay unique; an existing key keeps its position and every other pair stays where it was, while a new key is appended at the end |
| JsonValue.GetProperty | ui/plugin-lifecycle/src/main/services/api-extension.service.ts:28 | reading a property of `undefined` or `null` throws the matching error; on an object it is the own-property read; for the property names read here, on a string, number, boolean or array it is `undefined`; it yields a value only for an object |
| XmlHelper.Coerce | ui/plugin-lifecycle/src/main/classes/xml-helper.ts:13-17 | a string becomes its parsed JSON value when parsing succeeds, else stays the raw string |
| XmlHelper.StoreAttributes | ui/plugin-lifecycle/src/main/classes/xml-helper.ts:8-19 | the attribute pass adds exactly the attribute names as keys; it leaves other keys alone and keeps keys unique; with distinct names, each attribute reads back its coerced value |
| XmlHelper.Store | ui/plugin-lifecycle/src/main/classes/xml-helper.ts:33-42 | storing a converted child fails exactly when the stored value is `null` or an object with an own `push` key; otherwise the key holds the first value, the extended array, or the two-element promotion; all other keys are unchanged |
| XmlHelper.Convert | ui/plugin-lifecycle/src/main/classes/xml-helper.ts:2-46 | a text node converts to its coerced text; any other node converts, on success, to an object with unique keys; an element's keys are its attribute names plus its child names, and a document's keys are its child names; recursion is on strict subtrees, so it terminates |
| XmlHelper.MergeChildren | ui/plugin-lifecycle/src/main/classes/xml-helper.ts:29-44 | a successful child loop adds exactly the children's node names as keys and keeps keys unique |
| XmlHelper.MergeChildrenIsMergeValues | ui/plugin-lifecycle/src/main/classes/xml-helper.ts:29-44 | when every child converts, converting each child just before storing it gives the same result and the same error as storing the converted values one by one; if a conversion fails, the one-at-a-time loop fails too |
| XmlHelper.StoreStepPerKey | ui/plugin-lifecycle/src/main/classes/xml-helper.ts:33-42 | one store advances only its own key's fold by one value; every other key's fold is unaffected |
| XmlHelper.MergeValuesSuccessKeysOk | ui/plugin-lifecycle/src/main/classes/xml-helper.ts:33-41 | if the child loop succeeds, no key ever received a value while it held `null` or an object with a `push` key |
| XmlHelper.KeysOkMergeValuesSucceeds | ui/plugin-lifecycle/src/main/classes/xml-helper.ts:33-41 | if no key receives a value while blocked, the child loop succeeds |
| XmlHelper.MergeValuesSucceedsIff | ui/plugin-lifecycle/src/main/classes/xml-helper.ts:33-41 | the child loop succeeds if and only if no key receives a value while blocked |
| XmlHelper.MergeValuesFoldsEachKey | ui/plugin-lifecycle/src/main/classes/xml-helper.ts:30-42 | after a successful child loop, each key holds the per-key fold of the values named after it over what it held before |
| XmlHelper.FoldKeyOntoArray | ui/plugin-lifecycle/src/main/classes/xml-helper.ts:36-41 | values arriving for a key that holds an array are appended to it, never re-wrapped |
| XmlHelper.FoldKeyOntoScalar | ui/plugin-lifecycle/src/main/classes/xml-helper.ts:36-41 | a non-array value that receives values becomes the array of itself followed by them, in order |
| XmlHelper.FoldKeyFresh | ui/plugin-lifecycle/src/main/classes/xml-helper.ts:33-41 | on an unset key, no value leaves it unset; one value is stored unwrapped; two or more form one array in order, or extend the first value if it is an array |
| XmlHelper.ChildValuesInDocumentOrder | ui/plugin-lifecycle/src/main/classes/xml-helper.ts:30-34 | the values collected under a name are the conversions of the children with that name, one per child, in document order |
| XmlHelper.ElementPerKey | ui/plugin-lifecycle/src/main/classes/xml-helper.ts:6-44 | in a converted element, every key holds the fold of its same-named children's values over what the attribute pass stored |
| XmlHelper.EmptyElementIsEmptyObject | ui/plugin-lifecycle/src/main/classes/xml-helper.ts:4-29 | an element with no attributes and no children converts to `{}` |
| XmlHelper.AttributeKeepsCoercedValue | ui/plugin-lifecycle/src/main/classes/xml-helper.ts:10-18 | an attribute without a same-named child holds its parsed JSON value, or its raw string when parsing fails |
| XmlHelper.SingleChildIsNotWrapped | ui/plugin-lifecycle/src/main/classes/xml-helper.ts:33-34 | the only child of a name, with no attribute of that name, is stored as its converted value, not as an array |
| XmlHelper.RepeatedChildrenFormArray | ui/plugin-lifecycle/src/main/classes/xml-helper.ts:35-42 | two or more same-named child elements, with no attribute of that name, form one array with one entry per child, in document order |
| XmlHelper.AttributeArrayIsExtended | ui/plugin-lifecycle/src/main/classes/xml-helper.ts:8-41 | an attribute that parses to an array is extended, not wrapped, by the values of the same-named children |
| XmlHelper.NullAttributeCollision | ui/plugin-lifecycle/src/main/classes/xml-helper.ts:33-39 | a child named like an attribute that parses to `null` makes the conversion throw |
| ApiExtensionService.ServiceBody | ui/plugin-lifecycle/src/main/services/api-extension.service.ts:53-64 | the service document carries the requested `Enabled` value and always names `gcp-ticketing` |
| ApiExtensionService.Enable | ui/plugin-lifecycle/src/main/services/api-extension.service.ts:46-70 | enabling is a PUT to exactly the given URL, with a body whose `Enabled` is true and the service media type |
| ApiExtensionService.Disable | ui/plugin-lifecycle/src/main/services/api-extension.service.ts:76-100 | disabling is a PUT to exactly the given URL, with a body whose `Enabled` is false and the service media type |
| ApiExtensionService.Remove | ui/plugin-lifecycle/src/main/services/api-extension.service.ts:106-116 | deleting is a DELETE of exactly the given URL, with no body and no content type |
| ApiExtensionService.EnableDisableDifferOnlyInEnabled | ui/plugin-lifecycle/src/main/services/api-extension.service.ts:53-94 | the enable and disable requests for a URL are identical except the body's `Enabled` element |
| ApiExtensionService.BodyIgnoresTarget | ui/plugin-lifecycle/src/main/services/api-extension.service.ts:53-64 | the body does not depend on the target URL and always names `gcp-ticketing` |
| ApiExtensionService.NormaliseRecords | ui/plugin-lifecycle/src/main/services/api-extension.service.ts:28-38 | an absent or falsy result becomes `[]`, an array is returned unchanged, and any other value becomes a one-element list |
| ApiExtensionService.NormaliseIsIdempotent | ui/plugin-lifecycle/src/main/services/api-extension.service.ts:28-38 | normalising an already normalised list returns it unchanged |
| ApiExtensionService.ListingRequest | ui/plugin-lifecycle/src/main/services/api-extension.service.ts:17-26 | the listing is a GET of the base URL plus the service query path, accepting versioned XML |
| ApiExtensionService.ListApiExtensions | ui/plugin-lifecycle/src/main/services/api-extension.service.ts:26-39 | a failed conversion fails the listing; a document that converts to `null` throws on `QueryResultRecords`; one that converts to any other non-object, or lacks `QueryResultRecords`, throws on `AdminServiceRecord`; a `null` `QueryResultRecords` throws on `AdminServiceRecord`; a string, number, boolean or array `QueryResultRecords` gives the empty list; an object `QueryResultRecords` gives its normalised `AdminServiceRecord` value |
| ApiExtensionsComponent.Find | ui/plugin-lifecycle/src/main/api-extensions/api-extensions-component/api-extensions.component.ts:52-53 | a record is found exactly when some selected record is in that state, and the one found is the first selected record in that state |
| ApiExtensionsComponent.SelectionFlags | ui/plugin-lifecycle/src/main/api-extensions/api-extensions-component/api-extensions.component.ts:46-62 | `canDisable` holds if and only if some selected record is enabled; `canEnable` holds if and only if some is disabled; both are false for an empty selection |
| ApiExtensionsComponent.NonEmptySelectionOffersAnAction | ui/plugin-lifecycle/src/main/api-extensions/api-extensions-component/api-extensions.component.ts:46-62 | a non-empty selection offers at least one action, and offers both exactly when it mixes enabled and disabled records |
| ApiExtensionsComponent.Batch | ui/plugin-lifecycle/src/main/api-extensions/api-extensions-component/api-extensions.component.ts:448-494 | a batch holds one request per record, each for that record's `href`, in list order |
| ApiExtensionsComponent.BatchOfConcatenation | ui/plugin-lifecycle/src/main/api-extensions/api-extensions-component/api-extensions.component.ts:448-494 | the batch of a concatenation is the concatenation of the batches |
| ApiExtensionsComponent.Ready | ui/plugin-lifecycle/src/main/api-extensions/api-extensions-component/api-extensions.component.ts:144-155 | the ready list is never longer than the selection (its members, counts and order are the three lemmas below) |
| ApiExtensionsComponent.ReadyMembers | ui/plugin-lifecycle/src/main/api-extensions/api-extensions-component/api-extensions.component.ts:149-155 | a record is ready if and only if it is selected and not already in the target state |
| ApiExtensionsComponent.ReadyCounts | ui/plugin-lifecycle/src/main/api-extensions/api-extensions-component/api-extensions.component.ts:149-178 | nothing is ready if and only if every selected record is already in the target state; everything is ready if and only if none is |
| ApiExtensionsComponent.ReadyKeepsOrder | ui/plugin-lifecycle/src/main/api-extensions/api-extensions-component/api-extensions.component.ts:149-155 | filtering distributes over concatenation, so selection order is kept |
| ApiExtensionsComponent.Toggle | ui/plugin-lifecycle/src/main/api-extensions/api-extensions-component/api-extensions.component.ts:111-235 | declining, an empty selection, or a single record already in the target state closes silently; two or more all in the target state show only the "all already" notice; a mixed selection prompts "(n - k) of n" and sends the ready batch only if accepted; an all-ready selection sends the ready batch |
| ApiExtensionsComponent.ToggleTargetsOnlyRecordsNeedingChange | ui/plugin-lifecycle/src/main/api-extensions/api-extensions-component/api-extensions.component.ts:143-233 | every request a toggle sends is the toggle's action on a selected record that is not yet in the target state |
| ApiExtensionsComponent.OnEnable | ui/plugin-lifecycle/src/main/api-extensions/api-extensions-component/api-extensions.component.ts:111-235 | `onEnable` only ever sends enable requests, each for a selected disabled record |
| ApiExtensionsComponent.OnDisable | ui/plugin-lifecycle/src/main/api-extensions/api-extensions-component/api-extensions.component.ts:240-365 | `onDisable` only ever sends disable requests, each for a selected enabled record |
| ApiExtensionsComponent.OnDelete | ui/plugin-lifecycle/src/main/api-extensions/api-extensions-component/api-extensions.component.ts:370-440 | declining sends nothing; accepting first deletes the whole selection, unfiltered; a failed delete offers remediation; accepting it adds a disable batch and then a delete batch, both for the enabled records, concatenated so that the delete batch follows the disable batch |
| ApiExtensionsComponent.RemediationPairsDisableWithDelete | ui/plugin-lifecycle/src/main/api-extensions/api-extensions-component/api-extensions.component.ts:406-411 | the remediation's disable and delete batches have the same length and target the same URLs pairwise |
| ApiExtensionsComponent.RemediationTargetsExactlyEnabled | ui/plugin-lifecycle/src/main/api-extensions/api-extensions-component/api-extensions.component.ts:406-411 | the remediation disables a selected record if and only if that record is enabled |
| ApiExtensionsComponent.MixedSelectionEnableExample | ui/plugin-lifecycle/src/main/api-extensions/api-extensions-component/api-extensions.component.ts:178-213 | enabling one enabled and one disabled record prompts "1 of 2"; accepting enables only the disabled record, declining sends nothing |
| ApiExtensionsComponent.AlreadyEnabledExamples | ui/plugin-lifecycle/src/main/api-extensions/api-extensions-component/api-extensions.component.ts:136-172 | one already-enabled record closes silently; two already-enabled records show the "all already enabled" notice |
| PluginService.GetPlugins | ui/plugin-lifecycle/src/main/services/plugin.service.ts:10-12 | the plugin list is fetched from the UI extension endpoint |
| PluginService.DeletePlugin | ui/plugin-lifecycle/src/main/services/plugin.service.ts:14-16 | deleting targets the endpoint plus the plugin's own id |
| PluginService.DisablePlugin | ui/plugin-lifecycle/src/main/services/plugin.service.ts:18-21 | disabling sends the plugin with `enabled` false and every other field unchanged, to the endpoint plus the `id` argument |
| PluginService.EnablePlugin | ui/plugin-lifecycle/src/main/services/plugin.service.ts:23-26 | enabling sends the plugin with `enabled` true and every other field unchanged, to the endpoint plus the `id` argument |
| PluginService.ChangeScope | ui/plugin-lifecycle/src/main/services/plugin.service.ts:28-37 | the two scope flags take the given, possibly undefined, values and nothing else changes; the URL uses the `id` argument |
| PluginService.EnableAndDisableAreInverse | ui/plugin-lifecycle/src/main/services/plugin.service.ts:18-26 | enabling undoes disabling an enabled plugin, and disabling undoes enabling a disabled one |
| PluginService.ChangeScopeIdempotentAndIndependent | ui/plugin-lifecycle/src/main/services/plugin.service.ts:18-37 | repeating a scope change changes nothing more, and a scope change commutes with disabling |
| PluginManager.ForEachPush | ui/plugin-lifecycle/src/main/services/plugin-manager.service.ts:75-84 | the `forEach`/`push` loop builds one request per plugin, in list order |
| PluginManager.ForEachPushOfConcatenation | ui/plugin-lifecycle/src/main/services/plugin-manager.service.ts:75-84 | the list built for a concatenation is the concatenation of the lists |
| PluginManager.DisablePlugins | ui/plugin-lifecycle/src/main/services/plugin-manager.service.ts:75-84 | one PUT per selected plugin, to its own id, carrying the plugin with `enabled` false |
| PluginManager.EnablePlugins | ui/plugin-lifecycle/src/main/services/plugin-manager.service.ts:89-98 | as written, one PUT per selected plugin, none of which enables it |
| PluginManager.EnablePluginsDisablesEverything | ui/plugin-lifecycle/src/main/services/plugin-manager.service.ts:89-98 | as written, `enablePlugins` builds exactly the requests `disablePlugins` builds, and a disabled plugin stays disabled |
| PluginManager.EnablePluginsIntended | ui/plugin-lifecycle/src/main/services/plugin-manager.service.ts:89-98 | corrected: one PUT per selected plugin, to its own id, carrying the plugin with `enabled` true |
| PluginManager.EnableBatchUndoneByDisableBatch | ui/plugin-lifecycle/src/main/services/plugin-manager.service.ts:75-98 | the corrected enable batch and the disable batch target the same URLs, and disabling undoes the corrected enable of a disabled plugin |
| PluginManager.DeletePlugins | ui/plugin-lifecycle/src/main/services/plugin-manager.service.ts:103-112 | one DELETE per selected plugin, for its own id, in selection order |
| PluginManager.IndexOf | ui/plugin-lifecycle/src/main/services/plugin-manager.service.ts:127-128 | the result is -1 exactly when the name is absent; otherwise it is the first position holding it |
| PluginManager.ScopeFlags | ui/plugin-lifecycle/src/main/services/plugin-manager.service.ts:127-128 | `serviceProvider` is set if and only if the list contains `service-provider`, and `tenant` if and only if it contains `tenant` |
| PluginManager.ServiceScopeNameSetsNoFlag | ui/plugin-lifecycle/src/main/services/plugin-manager.service.ts:117-128 | the doc comment's example name `service-scope` sets neither flag |
| PluginManager.ChangeScopes | ui/plugin-lifecycle/src/main/services/plugin-manager.service.ts:119-135 | one PUT per plugin, in list order, carrying the plugin with both scope flags set from list membership |
| PluginManager.ChangeScopesDependsOnlyOnMembers | ui/plugin-lifecycle/src/main/services/plugin-manager.service.ts:127-128 | two scope lists with the same members build the same requests |
| PluginManager.BeforeLinkEnd | ui/plugin-lifecycle/src/main/services/plugin-manager.service.ts:231 | the first piece of `split(">;")` is the prefix before the first `>;`, or the whole string when there is none |
| PluginManager.TransferLink | ui/plugin-lifecycle/src/main/services/plugin-manager.service.ts:230-232 | a missing header throws on `split`; otherwise the link is that first piece without its first character |
| PluginManager.TransferLinkOfBracketedUrl | ui/plugin-lifecycle/src/main/services/plugin-manager.service.ts:230-232 | for a header `<U>;...` where `U` contains no `>;`, the transfer link is exactly `U` |
| PluginManager.AfterUpload | ui/plugin-lifecycle/src/main/services/plugin-manager.service.ts:241-259 | publish-for-all-tenants wins; otherwise non-empty scope data gives a mixed-scope change for the new plugin alone; otherwise `undefined` is emitted; scope changes are never tracked |
| PluginManager.ForAllOrgsIgnoresData | ui/plugin-lifecycle/src/main/services/plugin-manager.service.ts:243-246 | when publishing for all organisations, the scope data and the plugin name make no difference |
| ObjectHelpers.CreateStringEnum | ui/plugin-lifecycle/src/main/helpers/object-helpers.ts:1-6 | the enum's keys are exactly the input keys, and each maps to itself |
| ObjectHelpers.StringEnumIgnoresRepeatsAndOrder | ui/plugin-lifecycle/src/main/helpers/object-helpers.ts:1-6 | a repeated key collapses, and lists with the same keys give the same enum |
| ObjectHelpers.RenameStep | ui/plugin-lifecycle/src/main/helpers/object-helpers.ts:10-11 | one rename removes the old key, gives a different new key the old key's value (or `undefined`), and leaves every other key alone |
| ObjectHelpers.RenameProp | ui/plugin-lifecycle/src/main/helpers/object-helpers.ts:8-15 | after the renames the last old key is absent, and every key neither renamed nor written keeps its value and presence |
| ObjectHelpers.RenamePropStepwise | ui/plugin-lifecycle/src/main/helpers/object-helpers.ts:9-12 | step `i` removes `oldKeys[i]` and, unless it equals its new name, gives `newKeys[i]` the value `oldKeys[i]` had at that moment |
| ObjectHelpers.TargetsOfPrefix | ui/plugin-lifecycle/src/main/helpers/object-helpers.ts:9-11 | the names written by the first `n` pairs are the first `n` names written |
| ObjectHelpers.RenameLeavesOthers | ui/plugin-lifecycle/src/main/helpers/object-helpers.ts:8-15 | a property that is neither an old key nor a new name keeps its value |
| ObjectHelpers.StepExtendsMoved | ui/plugin-lifecycle/src/main/helpers/object-helpers.ts:10-11 | a rename step on a last old key and last new name, fresh among the earlier pairs, keeps every earlier move and adds its own |
| ObjectHelpers.RenameDisjointMovesEachValue | ui/plugin-lifecycle/src/main/helpers/object-helpers.ts:8-15 | with distinct old keys, distinct new names and no overlap, each new name gets its old key's original value and every old key is gone |
| ObjectHelpers.RenameToSelfDeletes | ui/plugin-lifecycle/src/main/helpers/object-helpers.ts:10-11 | renaming a key to itself deletes it and nothing else |
| ObjectHelpers.RenameMissingKeyGivesUndefined | ui/plugin-lifecycle/src/main/helpers/object-helpers.ts:10 | renaming a missing key creates the new key holding `undefined` |
| ObjectHelpers.RenamePastNewKeysUsesUndefined | ui/plugin-lifecycle/src/main/helpers/object-helpers.ts:10 | an old key with no new name at its index is moved to a property named `"undefined"` |

## Left out

- **HTTP and asynchrony.** HTTP calls, headers other than the media types, the authentication token, `DOMParser`, and the RxJS combinators (`merge`, `forkJoin`, `concat`) are not modelled. The model records which requests are built and in which order, not their interleaving, completion or error propagation. The first delete batch's error becomes the `deleteFailed` input.
- **OnDelete:** the remediation's delete batch is listed unconditionally, although under `Observable.concat` it is subscribed only if the disable batch completes without error; a failing disable is not an input of the model.
- **UI state.** Modal opening and closing, loading flags, subscriptions, `loadApiExtensions`/`onRefresh` and the list refresh after each batch are not modelled. None of them affects which requests are built.
- **JSON parsing.** The internals of `JSON.parse` and the floating-point values of JSON numbers are not modelled. Parsing is an oracle, and numbers are reals whose only observable property here is being zero.
- **Object.prototype keys.** Keys inherited from `Object.prototype` are not modelled. An element with a child named `constructor` or `toString` would see the inherited member in `typeof obj[nodeName]`. Only own properties are modelled.
- **Typing the records.** Turning the converted records into typed `AdminServiceRecord` values is a TypeScript type assertion, not code. The model takes records with a boolean `enabled`. A record whose `enabled` is not a boolean would fail both `=== true` and `=== false`, and that case is not modelled.
- **Plugin mutation.** `PluginService` mutates the caller's plugin in place. The model returns the updated copy inside the request and does not model the aliasing.
- **The rest of `PluginManager`.** `reqPlugins`, `getPluginsList`, `refresh`, `checkForDuplications`, the selection subjects, `publishPluginForAllTenants`, `unpublishPluginForAllTenants` and `handleMixedScope` are left out, because they only forward to collaborators that are not part of this model. The same goes for the `uploadPlugin` chain, apart from the `Link` header parsing and the final emission. The uploaded file carried in the plugin record is also left out.
- **`renameProp` inputs.** `renameProp` on a value that is not an object, which throws, is not modelled. Neither is the key order of the objects `createStringEnum` and `renameProp` return. Both return maps.
- **Excluded source files.** The generated binding classes contain no behaviour. `splitVendorsIntoChunks` and `extractExternalRegExps` in `utilites.ts` depend on the file system and on JavaScript regular expressions. Neither is part of this model.
- **GetProperty:** the `length` and index properties of strings and arrays, and inherited methods, are not modelled; on those names the model yields `undefined` where JavaScript yields a value. Only `QueryResultRecords` and `AdminServiceRecord` are read through it, and for those names the model matches JavaScript.
- **Ready:** its own contract states only the length bound. Membership, the empty and full counts, and order preservation are proved in `ReadyMembers`, `ReadyCounts` and `ReadyKeepsOrder`.
- **EnablePlugins:** its own contract states only that no request enables a plugin. The full equality with `DisablePlugins` is in `EnablePluginsDisablesEverything`.

## Findings

| source | as written | input that shows it | evidently intended | confidence | as-written member | corrected member |
|---|---|---|---|---|---|---|
| ui/plugin-lifecycle/src/main/services/plugin-manager.service.ts:89-98 | `enablePlugins` calls `pluginService.disablePlugin` for every selected plugin | a selection holding one plugin with `enabled` false: the PUT sent carries `enabled` false | call `enablePlugin`, so that every PUT carries `enabled` true | high; not executed | PluginManager.EnablePluginsDisablesEverything | PluginManager.EnablePluginsIntended |
