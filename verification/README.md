# Contact-center plugin cores, modelled in Dafny

This project models the few pure data transformations of a contact-center
UI plugin and its SMS webhook:

- **Parked-interaction listing** (`ParkView`): the items read from a worker's
  hosted map are filtered (non-object and keyless items, and the item with
  the key just deleted, are dropped), formatted into display rows (a capitalised channel label such as
  "Chat (Messenger)", an address, a parking timestamp), and sorted most recent
  first. A non-empty read resets the remembered deleted key, even when every
  item is filtered out.
- **Tabbed CRM panel** (`TabbedCrm`): the panel's visibility for the task in
  context, the "load components" listener, which ignores other tasks and
  replaces the custom tab list with the payload sorted by `order` (missing
  order = 999), the "select tab" listener, the tab sequence with the fixed
  "Senior Info" tab first, and the defaults that tab shows.
- **Inbound SMS webhook** (`RouteSms`): the defaults for sender and body, the
  phone query, the senior record derived from the profile service's answer,
  the task-creation request and the callback's arguments.
- **Reducer registry** (`Reducers`): the right-biased merge of each feature's
  reducers, and `init`, which registers a snapshot of the registry in the
  store under the plugin namespace.

Shared pieces: `Shared` (optional properties, JavaScript truthiness of
strings, the senior record) and `StableSort`, a stable sort by an integer
rank. Both sorts in the source use `Array.prototype.sort` with a subtracting
comparator, which ECMAScript 2019 and later require to be stable; the model
specifies a stable sort as "ordered by rank, and for every rank value the
elements of that rank keep their order" (`IsStableSort`), proves that this
specification has exactly one solution, and that the insertion sort used meets
it. The parked-interaction comparator `b.parkingDate - a.parkingDate` is
modelled as ascending order of the negated date.
`SeniorDataFlow` connects the webhook to the CRM panel: what the agent sees
for the senior record the webhook stored.

I/O is turned into parameters: the map read is the `fetched` input of
`ParkView.Refresh`; the profile service and task creation are functions passed
to `RouteSms.Handle`; the redux namespace is a parameter of `Reducers.Init`.

When the profile lookup throws, the webhook stores the empty object `{}` as
`seniorData` (route-sms.js:9, 20-22). The defaults "Unknown"/"N/A"/"N/A" are
only applied when the CRM panel shows the record
(`SeniorDataFlow.PanelShowsSmsSenior`).

## Model

| member | source | states |
|---|---|---|
| StableSort.Sort | plugin-flex-ts-template-v2/src/feature-library/enhanced-crm-container/custom-components/TabbedCRMTask/TabbedCRMTask.tsx:48 | the result is a permutation of the input, ordered by rank, and each equal-rank group keeps its input order (a stable sort) |
| StableSort.Insert | plugin-flex-ts-template-v2/src/feature-library/park-interaction/custom-components/ParkView/ParkView.tsx:96-98 | the insertion step adds exactly the element: the result's multiset is the input's plus the element |
| StableSort.InsertSorted | plugin-flex-ts-template-v2/src/feature-library/park-interaction/custom-components/ParkView/ParkView.tsx:96-98 | inserting into a rank-ordered list keeps it ordered |
| StableSort.InsertWithRank | plugin-flex-ts-template-v2/src/feature-library/park-interaction/custom-components/ParkView/ParkView.tsx:96-98 | the inserted element goes first among the elements of its rank, and every other rank group is unchanged |
| StableSort.StableSortUnique | plugin-flex-ts-template-v2/src/feature-library/park-interaction/custom-components/ParkView/ParkView.tsx:96-98 | two rank-ordered sequences whose equal-rank subsequences agree are equal: the stable sort of a list is unique |
| StableSort.SortMeetsSpec | plugin-flex-ts-template-v2/src/feature-library/enhanced-crm-container/custom-components/TabbedCRMTask/TabbedCRMTask.tsx:48 | a sequence is a stable sort of the input if and only if it is the insertion sort's result |
| StableSort.StableSortIsPermutation | plugin-flex-ts-template-v2/src/feature-library/park-interaction/custom-components/ParkView/ParkView.tsx:96-98 | any stable sort is a permutation of its input |
| StableSort.WithRankMember | plugin-flex-ts-template-v2/src/feature-library/park-interaction/custom-components/ParkView/ParkView.tsx:96-98 | an element is in the rank-k group exactly when it is in the list with rank k |
| ParkView.KeptItemsMember | plugin-flex-ts-template-v2/src/feature-library/park-interaction/custom-components/ParkView/ParkView.tsx:45-55 | an item survives the filter if and only if it is an object with a key different from the just-deleted key |
| ParkView.KeptItems | plugin-flex-ts-template-v2/src/feature-library/park-interaction/custom-components/ParkView/ParkView.tsx:45-55 | the filter never grows the list and keeps only well-formed items not carrying the deleted key |
| ParkView.Capitalize | plugin-flex-ts-template-v2/src/feature-library/park-interaction/custom-components/ParkView/ParkView.tsx:82 | the first character is upper-cased (a lower-case ASCII letter moves down by 32, anything else stays), the length is kept and the rest is unchanged |
| ParkView.CapitalizeProperties | plugin-flex-ts-template-v2/src/feature-library/park-interaction/custom-components/ParkView/ParkView.tsx:82 | capitalising upper-cases the first character only, leaves the rest unchanged, and is idempotent |
| ParkView.ChannelLabel | plugin-flex-ts-template-v2/src/feature-library/park-interaction/custom-components/ParkView/ParkView.tsx:82-85 | the label starts with the capitalised channel name and is longer than it exactly when a non-empty conversation type different from the raw channel name is set |
| ParkView.ChannelLabelParts | plugin-flex-ts-template-v2/src/feature-library/park-interaction/custom-components/ParkView/ParkView.tsx:82-85 | the label starts with the capitalised channel name; it is longer exactly when a non-empty conversation type different from the channel name is set, and then continues with " (", the capitalised type and ")" |
| ParkView.Address | plugin-flex-ts-template-v2/src/feature-library/park-interaction/custom-components/ParkView/ParkView.tsx:90 | an address exists only when customers do; it is the phone or the e-mail property, and the phone whenever the phone is non-empty |
| ParkView.AddressChoice | plugin-flex-ts-template-v2/src/feature-library/park-interaction/custom-components/ParkView/ParkView.tsx:90 | the address is a non-empty phone when there is one, otherwise the e-mail property as it is; no customers means no address |
| ParkView.ParkingDate | plugin-flex-ts-template-v2/src/feature-library/park-interaction/custom-components/ParkView/ParkView.tsx:70-78 | the parking date is the creation time when that is present, and otherwise the update time |
| ParkView.Format | plugin-flex-ts-template-v2/src/feature-library/park-interaction/custom-components/ParkView/ParkView.tsx:56-94 | a row keeps the item's key, webhook SID and customer name, its label starts with the capitalised channel name, its address exists only with customers, and its date is the creation time when present, else the update time |
| ParkView.Refresh | plugin-flex-ts-template-v2/src/feature-library/park-interaction/custom-components/ParkView/ParkView.tsx:39-102 | a missing or empty read shows an empty list and keeps the deleted key; a non-empty read shows the stable most-recent-first sort of the formatted kept items and resets the deleted key; the view ends loaded |
| ParkView.RefreshOrdered | plugin-flex-ts-template-v2/src/feature-library/park-interaction/custom-components/ParkView/ParkView.tsx:45-98 | a listing has no more rows than items, is a permutation of the formatted kept items, and has non-increasing parking dates |
| ParkView.RefreshRowFromKept | plugin-flex-ts-template-v2/src/feature-library/park-interaction/custom-components/ParkView/ParkView.tsx:45-95 | every row is the row of a kept item, so never of the deleted key |
| ParkView.RefreshShowsAllKept | plugin-flex-ts-template-v2/src/feature-library/park-interaction/custom-components/ParkView/ParkView.tsx:45-95 | every item that passes the filter has its row in the listing |
| TabbedCrm.Visibility | plugin-flex-ts-template-v2/src/feature-library/enhanced-crm-container/custom-components/TabbedCRMTask/TabbedCRMTask.tsx:36-39 | the panel is shown for the context task itself and for a context task naming this task as parent, and hidden when exactly one of the two tasks is absent |
| TabbedCrm.VisibilityCases | plugin-flex-ts-template-v2/src/feature-library/enhanced-crm-container/custom-components/TabbedCRMTask/TabbedCRMTask.tsx:36-39 | the panel is shown when both tasks are absent, or both are present and the task SIDs match or the context task's parent is this task; it is hidden when exactly one is absent |
| TabbedCrm.HandleLoad | plugin-flex-ts-template-v2/src/feature-library/enhanced-crm-container/custom-components/TabbedCRMTask/TabbedCRMTask.tsx:41-50 | a payload for another task, or without components, leaves the list unchanged; otherwise the list becomes a stable sort of the payload by order (999 when missing) |
| TabbedCrm.HandleLoadReplaces | plugin-flex-ts-template-v2/src/feature-library/enhanced-crm-container/custom-components/TabbedCRMTask/TabbedCRMTask.tsx:47-49 | a matching load does not depend on the previous list (no merge) and yields a permutation of the payload |
| TabbedCrm.UnorderedSortLast | plugin-flex-ts-template-v2/src/feature-library/enhanced-crm-container/custom-components/TabbedCRMTask/TabbedCRMTask.tsx:48 | after a load, components without an order follow every component with order below 999 and precede every one above 999 |
| TabbedCrm.HandleSelect | plugin-flex-ts-template-v2/src/feature-library/enhanced-crm-container/custom-components/TabbedCRMTask/TabbedCRMTask.tsx:52-58 | an empty or missing title keeps the selection; any other title selects "crm-tab-" followed by that title |
| TabbedCrm.SelectMatchesTabKey | plugin-flex-ts-template-v2/src/feature-library/enhanced-crm-container/custom-components/TabbedCRMTask/TabbedCRMTask.tsx:52-58 | for a rendered tab with a non-empty title, the id passed to `tabState.select` is the same string as that tab's React `key`; distinct titles give distinct ids |
| TabbedCrm.TabKeys | plugin-flex-ts-template-v2/src/feature-library/enhanced-crm-container/custom-components/TabbedCRMTask/TabbedCRMTask.tsx:107-109 | one React `key` per rendered tab, in tab order, each "crm-tab-" followed by the tab's title |
| TabbedCrm.AllComponents | plugin-flex-ts-template-v2/src/feature-library/enhanced-crm-container/custom-components/TabbedCRMTask/TabbedCRMTask.tsx:98-101 | the rendered tab sequence always starts with "Senior Info" |
| TabbedCrm.AllComponentsShape | plugin-flex-ts-template-v2/src/feature-library/enhanced-crm-container/custom-components/TabbedCRMTask/TabbedCRMTask.tsx:98-101 | with no stored list only "Senior Info" is rendered; otherwise the stored list follows it unchanged |
| TabbedCrm.TabsAfterLoad | plugin-flex-ts-template-v2/src/feature-library/enhanced-crm-container/custom-components/TabbedCRMTask/TabbedCRMTask.tsx:98-101 | after a matching load the tabs are "Senior Info" then a stable order-sort of the payload, one more tab than the payload holds, whatever the custom orders are |
| TabbedCrm.SeniorInfoPanel | plugin-flex-ts-template-v2/src/feature-library/enhanced-crm-container/custom-components/TabbedCRMTask/TabbedCRMTask.tsx:76-95 | without a task the tab shows "No active task"; with one it shows the task body as the message, and Unknown / N/A / N/A when the task has no senior record |
| TabbedCrm.SeniorInfoDefaults | plugin-flex-ts-template-v2/src/feature-library/enhanced-crm-container/custom-components/TabbedCRMTask/TabbedCRMTask.tsx:76-82 | each field shown is the stored one when present and 'Unknown' / 'N/A' / 'N/A' when missing; the message is the task body |
| RouteSms.EncodePhone | serverless-functions/src/functions/features/sms/route-sms.js:12 | the query is as long as the sender or two characters longer |
| RouteSms.EncodeWithoutPlus | serverless-functions/src/functions/features/sms/route-sms.js:12 | a sender without '+' is sent unchanged |
| RouteSms.EncodeFirstPlus | serverless-functions/src/functions/features/sms/route-sms.js:12 | only the first '+' becomes "%2B"; the text before and after it is unchanged |
| RouteSms.PhoneRoundTrip | serverless-functions/src/functions/features/sms/route-sms.js:12 | for a sender without '%', turning the first "%2B" back into '+' recovers the sender |
| RouteSms.SeniorFromProfiles | serverless-functions/src/functions/features/sms/route-sms.js:14-19 | a record derived from the service's answer has all three fields |
| RouteSms.SeniorAfterLookup | serverless-functions/src/functions/features/sms/route-sms.js:9-22 | the record is the empty object exactly when the lookup threw |
| RouteSms.SeniorDataDerivation | serverless-functions/src/functions/features/sms/route-sms.js:9-22 | no profile gives Unknown / N/A / N/A; a first profile gives "first last" or 'Unknown' and its age and address or 'N/A'; a thrown lookup leaves the empty record |
| RouteSms.Handle | serverless-functions/src/functions/features/sms/route-sms.js:3-43 | the request always goes to the 'sms' channel with the given workflow, a non-empty sender and body, and the name "SMS from " + sender; the callback carries either a response or an error, and a response carries the SID task creation returned |
| RouteSms.HandleContract | serverless-functions/src/functions/features/sms/route-sms.js:3-43 | sender and body get their defaults, the lookup gets the encoded sender, the task request carries channel 'sms', name "SMS from " + sender, sender, body and the record, and the callback gets either the new task's SID or the creation error, never both |
| Reducers.AddHook | plugin-flex-ts-template-v2/src/utils/feature-loader/reducers.ts:21-25 | the new key set is the union; a contributed name maps to the contribution's reducer; every other name keeps its reducer |
| Reducers.AddHookIdempotent | plugin-flex-ts-template-v2/src/utils/feature-loader/reducers.ts:22-25 | applying the same contribution twice is the same as applying it once |
| Reducers.RegistryOf | plugin-flex-ts-template-v2/src/utils/feature-loader/reducers.ts:19-26 | after a sequence of hooks every contributed name is registered, and the last hook's names map to its reducers |
| Reducers.LastContributionWins | plugin-flex-ts-template-v2/src/utils/feature-loader/reducers.ts:19-26 | after a sequence of hooks a name is registered exactly when some hook contributed it, mapped to the reducer of the last hook that did |
| Reducers.Init | plugin-flex-ts-template-v2/src/utils/feature-loader/reducers.ts:8-17 | without `addReducer` the store is unchanged; otherwise the combined registry is registered under the namespace and no other namespace changes |
| Reducers.InitSnapshot | plugin-flex-ts-template-v2/src/utils/feature-loader/reducers.ts:16 | hooks run after `init` leave the store, and the combined reducer registered from the registry as it stood, unchanged |
| Reducers.HooksKeepStore | plugin-flex-ts-template-v2/src/utils/feature-loader/reducers.ts:19-26 | adding reducer hooks never touches the store |
| SeniorDataFlow.PanelShowsSmsSenior | plugin-flex-ts-template-v2/src/feature-library/enhanced-crm-container/custom-components/TabbedCRMTask/TabbedCRMTask.tsx:81-82 | for an SMS task the panel shows Unknown / N/A / N/A after a failed lookup and exactly the derived fields otherwise, with the SMS body as the message |

## Left out

- Fetching the hosted map, the error notification on a failed fetch, the table rendering and the reload wiring of the parked-interaction view: I/O and UI; the fetch result is an input.
- Parsing of `taskAttributes` when stored as a JSON string, and `new Date(...)` parsing of the creation time: timestamps are integers and attributes are already structured.
- ParkView.Refresh: kept items are assumed to carry `data` with a parsable `taskAttributes`; in the source an item with a key but without them makes formatting throw (ParkView.tsx:66-68, 90), and the view then stays unloaded with its old list and deleted key.
- ParkView.Refresh: requires every kept item to have a non-empty channel name and at least one timestamp; the source throws on an empty channel name and its comparator yields NaN for a missing date.
- ParkView.Capitalize: upper-casing covers ASCII letters only, not Unicode case mapping.
- TabbedCrm.HandleLoad: orders are integers; fractional or NaN orders are not modelled, and the in-place mutation of the payload's array by `sort` is not modelled.
- Listener registration and removal, the initial load broadcast, React state and the tab widget: framework side effects.
- TabbedCrm.SelectMatchesTabKey: tab ids are not modelled. The `crm-tab-` string matches each tab's React `key`, which is a reconciliation key and not a tab id, so the model does not show that a select reaches a tab. The tab widget's id scheme belongs to the UI library.
- RouteSms.HandleContract: the client factory `context.getTwilioClient()` and the callback are assumed to return normally; in the source a throwing factory means the callback is never called, and a callback that throws on success is called a second time with the error (route-sms.js:39-41).
- The profile service's URL, query-parameter encoding by the HTTP client, `console` logging, `JSON.stringify` of the attributes and the workspace SID: I/O details outside the handler's logic.
- Field values of profiles and senior records are strings; numeric ages are not distinguished from strings.
- Reducers.Init: the store's `addReducer` is the framework's; it is modelled as an update of the reducer map at the namespace key, so "no other namespace changes" is a property of that model, not of `init`.
- Reducers.Init: the combined reducer is a snapshot of the registry map, not a runnable reducer; `combineReducers` itself and the version check's log message are not modelled.
- Park and unpark actions (`ParkInteraction.ts`), the wrap-up auto-complete panel (`AutoComplete.tsx`) and the action type declaration (`Action.ts`): glue over services not part of this model, UI rendering, and a type with no behaviour.
