# Forge webhooks skeleton: a verified model of its decision layer

This project models, in Dafny, the logic of the Autodesk Forge
create-webhooks skeleton that stays when every network and store call is
abstracted away:

- **`CSharp`** (`csharp.dfy`): the parts of the C# base library that the
  controllers rely on. This covers `String.Split(char)`, which keeps empty
  segments, and `string.Join`. It also covers `string.IsNullOrWhiteSpace`,
  `ToLower` on ASCII text, and array indexing with its
  `IndexOutOfRangeException`. `Outcome` records whether a call returns or
  throws, and `Option` stands for a reference that may be null.
- **`Webhook`** (`webhook.dfy`, for `webhook/Controllers/Webhook.cs`):
  - the `Event` enumeration and `EnumToString`, which builds the wire name;
  - the three `RestRequest`s the client builds, as records;
  - the `DMWebhook` class. Its `DeleteHook` is an imperative loop that
    sends one DELETE per listed hook and fills a status dictionary.
    `Dictionary.Add` throws on a repeated id.
- **`Controller`** (`controller.dfy`, for
  `webhook/Controllers/WebhookController.cs`):
  - the href extractors of `HookInputData`;
  - `CallbackUrl`;
  - the guard chains of `GetHooks`, `CreateHook` and `DeleteHook`. These
    methods update the controller's `credentials` field;
  - the callback endpoint, which appends a job to a `Scheduler` object;
  - the retry decision of `ExtractMetadata`.
- **`Sample`** (`sample.dfy`, for
  `forgesample/Controllers/WebhookController.cs`): the older controller's
  inline folder-href parsing, its early returns and its no-op callback.

External services are parameters:

- The Forge servers are the `ForgeApi` oracle: total functions from a
  request to the hub region, the hook list or the status they answer with.
- The session is an `Option<Credentials>`.
- The settings are a map.
- The credentials database and `Base64Encode` are functions.

Every call a method makes outside the model is returned, in order, as a
trace (`Call`, `SampleCall`). The contracts state each trace exactly.

`EnumToString` is written as the table of its five results.
`Webhook.EnumToStringIsWireName` proves that each entry is what the
source's pipeline computes: cut before each non-initial capital, join
with ".", lower-case, prefix "dm.". That pipeline is modelled as
`Webhook.WireName`.

The extractors do not always return "": a href with too few
'/'-separated segments makes them throw `IndexOutOfRangeException`, and a
null href `NullReferenceException`; the model keeps both. The guard
chains let these exceptions escape in the order the properties are read.

## Model

| member | source | states |
|---|---|---|
| CSharp.Split | webhook/Controllers/WebhookController.cs:66 | `Split` returns one more piece than there are separators, and no piece contains the separator. |
| CSharp.SplitJoin | webhook/Controllers/WebhookController.cs:66 | Joining the pieces of a split with the separator gives back the string, so the split loses nothing. |
| CSharp.JoinSplit | webhook/Controllers/WebhookController.cs:66 | Splitting a join of separator-free pieces gives back the pieces. |
| CSharp.SplitAppend | webhook/Controllers/WebhookController.cs:66 | A separator splits a string into the pieces of its left side followed by the pieces of its right side. |
| CSharp.ElementAt | webhook/Controllers/WebhookController.cs:67-68 | Indexing returns the element exactly when the index is in bounds, and otherwise throws `IndexOutOfRange`. |
| CSharp.ToLowerShape | webhook/Controllers/Webhook.cs:118 | After lower-casing there is no upper-case letter, and the number of '.' is unchanged. |
| CSharp.ToLowerAppend | webhook/Controllers/Webhook.cs:118 | Lower-casing distributes over concatenation. |
| Webhook.SplitBeforeUpper | webhook/Controllers/Webhook.cs:118 | The regular-expression split gives at least one word. Every word after the first starts with a capital, and no word has a capital after its first character. |
| Webhook.SplitBeforeUpperLossless | webhook/Controllers/Webhook.cs:118 | The words of the split concatenate back to the identifier. |
| Webhook.JoinedSplitIsDotted | webhook/Controllers/Webhook.cs:118 | Joining the words with "." is the same as inserting a '.' before every non-initial capital (`DotBeforeUpper`, the independent definition). |
| Webhook.DottedCount | webhook/Controllers/Webhook.cs:118 | Inserting the dots adds exactly one '.' per non-initial capital. |
| Webhook.WireName | webhook/Controllers/Webhook.cs:118 | The pipeline's result starts with "dm." and has no upper-case letter. It has one more '.' than the identifier has '.' plus non-initial capitals. |
| Webhook.WireNameOfTwoWords | webhook/Controllers/Webhook.cs:118 | The wire name of two capitalised words is "dm." + first + "." + second, both lower-cased. |
| Webhook.EnumToStringIsWireName | webhook/Controllers/Webhook.cs:116-119 | For every event, `EnumToString` equals the pipeline applied to `Enum.GetName`, e.g. `VersionAdded` gives "dm.version.added". |
| Webhook.WireNameCoped | webhook/Controllers/Webhook.cs:161 | The misspelt `VersionCoped` keeps its spelling on the wire: "dm.version.coped". |
| Webhook.EnumToStringShape | webhook/Controllers/Webhook.cs:118 | Every event's wire name starts with "dm." and has no capital. It has one more '.' than the identifier has non-initial capitals. |
| Webhook.EnumToStringInjective | webhook/Controllers/Webhook.cs:155-162 | Distinct events have distinct wire names. |
| Webhook.HooksRequestReads | webhook/Controllers/Webhook.cs:57-61 | The listing is a GET on the hooks resource with the `scopeName=folder&scopeValue={folderId}` query. Its segments are `event` = the wire name and `folderId`. Its headers are "Bearer " + token and the region. It has no body. |
| Webhook.CreateHookRequestReads | webhook/Controllers/Webhook.cs:75-86 | The registration is a POST with segment `event`, the two headers, and the JSON body {callbackUrl, scope.folder = folderId, hookAttribute.projectId = projectId}. |
| Webhook.DeleteHookRequestReads | webhook/Controllers/Webhook.cs:103-107 | A deletion is a DELETE on `.../hooks/{hook_id}` with `event`, `hook_id` = the hook's id, and the two headers. |
| Webhook.DeleteHookRequestInjective | webhook/Controllers/Webhook.cs:103-105 | Deletions of different hook ids are different requests. |
| Webhook.LookupsOfAuthHeaders | webhook/Controllers/Webhook.cs:60-61 | After the URL segments, the first `Authorization` and `x-ads-region` headers are the ones the client added. |
| Webhook.FirstRepeat | webhook/Controllers/Webhook.cs:110 | In a hook list with a repeated id, the returned position is the first hook whose id an earlier hook already has. The hooks before it have distinct ids. |
| Webhook.FirstRepeatAt | webhook/Controllers/Webhook.cs:110 | A hook that repeats an id after a run of distinct ids is that first repeat. |
| Webhook.DistinctIdsSnoc | webhook/Controllers/Webhook.cs:110 | Appending a hook with a new id keeps the ids distinct. |
| Webhook.DeleteCallsShape | webhook/Controllers/Webhook.cs:101-108 | There is exactly one DELETE per listed hook, in list order, each naming that hook's id. |
| Webhook.StatusMapKeys | webhook/Controllers/Webhook.cs:99-113 | The dictionary's keys are exactly the listed hook ids. |
| Webhook.StatusMapValues | webhook/Controllers/Webhook.cs:108-110 | Each listed id is mapped to the status of its own DELETE, failed statuses included. |
| Webhook.DeleteLoopStep | webhook/Controllers/Webhook.cs:101-111 | For one pass of the loop: the id is already a key exactly when it is the first repeat. Otherwise the ids stay distinct, and the dictionary and the trace each grow by this hook's entry. |
| Webhook.DMWebhook.constructor | webhook/Controllers/Webhook.cs:36-40 | The client keeps the token and the callback URL it is given. |
| Webhook.DMWebhook.GetHubRegion | webhook/Controllers/Webhook.cs:42-48 | Returns the hub's region as the API reports it, after one hub lookup with this client's token. |
| Webhook.DMWebhook.Hooks | webhook/Controllers/Webhook.cs:55-66 | Sends exactly the listing request and returns the response's hook list unfiltered. |
| Webhook.DMWebhook.CreateHook | webhook/Controllers/Webhook.cs:73-90 | Sends exactly one registration, carrying the constructor's callback URL, and returns its status unchanged. |
| Webhook.DMWebhook.DeleteHook | webhook/Controllers/Webhook.cs:96-114 | Lists first, then sends one DELETE per hook in order; an empty list gives an empty map and no DELETE. It returns exactly when the ids are distinct, and then returns the status dictionary. On the first repeated id it throws `DuplicateKey` after that hook's DELETE has been sent. |
| Controller.Segments | webhook/Controllers/WebhookController.cs:66 | A null href throws `NullReference`. Otherwise the segments join back to the href, with one more segment than there are '/'. |
| Controller.IdAfterResourceThrows | webhook/Controllers/WebhookController.cs:66-68 | An extractor throws `IndexOutOfRange` exactly when the href has too few '/'. |
| Controller.ExtractFolderIdFromHref | webhook/Controllers/WebhookController.cs:64-71 | Throws on a null href, or on a href without '/'. |
| Controller.ExtractProjectIdFromHref | webhook/Controllers/WebhookController.cs:73-80 | Throws on a null href, or on a href with fewer than three '/', i.e. fewer than four segments. |
| Controller.ExtractHubIdFromHref | webhook/Controllers/WebhookController.cs:82-89 | Throws on a null href, or on a href without '/'. |
| Controller.FolderIdOfFolderHref | webhook/Controllers/WebhookController.cs:64-71 | Any href ending in "folders/" + id, where the id has no '/', yields that id. |
| Controller.ProjectIdOfProjectHref | webhook/Controllers/WebhookController.cs:73-80 | Any href ending in "projects/" + id + two more segments yields that id, the third segment from the end. |
| Controller.HubIdOfHubHref | webhook/Controllers/WebhookController.cs:82-89 | Any href ending in "hubs/" + id yields that id. |
| Controller.LastSegmentSound | webhook/Controllers/WebhookController.cs:64-71 | A non-empty id comes only from a href that is a segment prefix + resource + "/" + id. |
| Controller.ProjectIdValue | webhook/Controllers/WebhookController.cs:73-80 | On a href with four or more segments, the project id is the third segment from the end when the fourth is "projects", and "" otherwise. |
| Controller.ProjectIdSegments | webhook/Controllers/WebhookController.cs:73-80 | A non-empty project id is the third segment from the end, and the fourth from the end is "projects". |
| Controller.ProjectIdOtherwiseEmpty | webhook/Controllers/WebhookController.cs:73-80 | A href with four or more segments whose fourth from the end is not "projects" yields "". |
| Controller.ProjectIdSound | webhook/Controllers/WebhookController.cs:73-80 | A non-empty project id comes only from a href that is a segment prefix + "projects/" + id + "/" + two more '/'-free segments (the converse of `ProjectIdOfProjectHref`). |
| Controller.TrailingSegments | webhook/Controllers/WebhookController.cs:66-68 | A href whose last two segments are a resource and an id, the empty id included, is a segment prefix + resource + "/" + id, and neither contains '/'. |
| Controller.FolderIdSound | webhook/Controllers/WebhookController.cs:64-71 | A non-empty folder id comes only from a href ending in "folders/" + that id (the converse of `FolderIdOfFolderHref`). |
| Controller.HubIdSound | webhook/Controllers/WebhookController.cs:82-89 | A non-empty hub id comes only from a href ending in "hubs/" + that id. |
| Controller.CheckIds | webhook/Controllers/WebhookController.cs:102-104 | For ids read in order: the chain passes all values exactly when every id is usable. Otherwise the first exception escapes, or the first blank id rejects, with every id before it usable. |
| Controller.CheckTwoIds | webhook/Controllers/WebhookController.cs:47-51 | The two-guard chain of `GetHooks`, unrolled: folder id first, then hub id. |
| Controller.CheckThreeIds | webhook/Controllers/WebhookController.cs:102-104 | The three-guard chain of `CreateHook` and `DeleteHook`, unrolled: folder, project, then hub id. |
| Controller.WebhookController.ReadTwoIds | webhook/Controllers/WebhookController.cs:47-51 | The sequential guards of `GetHooks` compute the chain's verdict. |
| Controller.WebhookController.ReadIds | webhook/Controllers/WebhookController.cs:93-95 | The sequential guards over `FolderId`, `ProjectId` and `HubId` compute the chain's verdict, with three ids when they all pass. |
| Controller.WebhookController.constructor | webhook/Controllers/WebhookController.cs:36 | The controller starts with no credentials. |
| Controller.WebhookController.CallbackUrl | webhook/Controllers/WebhookController.cs:40 | The URL is the `FORGE_WEBHOOK_URL` setting, or "" when it is missing, followed by "/api/forge/callback/webhook". |
| Controller.WebhookController.GetHooks | webhook/Controllers/WebhookController.cs:45-60 | A blank folder id, a blank hub id or no session (checked in that order) gives null, with no API call before the session lookup. Otherwise the result is the `VersionAdded` hooks of the folder in the hub's region, after exactly a session lookup, a hub lookup and a listing. |
| Controller.WebhookController.CreateHook | webhook/Controllers/WebhookController.cs:100-113 | A blank id gives BadRequest before the session is read, and no session gives Unauthorized. Otherwise there is exactly one registration with `VersionAdded`, the project and folder ids and the hub's region, and the result is Ok whatever the status. |
| Controller.WebhookController.DeleteHook | webhook/Controllers/WebhookController.cs:117-130 | Same guards as `CreateHook`. Then the hub lookup, the listing and one DELETE per listed hook, and Ok. A repeated hook id makes the action throw `DuplicateKey` after the DELETEs up to it. |
| Controller.Scheduler.Schedule | webhook/Controllers/WebhookController.cs:159 | Scheduling appends the job. |
| Controller.CallbackJob | webhook/Controllers/WebhookController.cs:139-159 | A job is scheduled exactly when the four fields are present and the event is "dm.version.added". The job is `ExtractMetadata(createdBy, projectId, resourceUrn)`, delayed 30 seconds. |
| Controller.CallbackFilterIsVersionAdded | webhook/Controllers/WebhookController.cs:145 | Among the events' wire names, only `VersionAdded`'s passes the callback filter. |
| Controller.WebhookController.WebhookCallback | webhook/Controllers/WebhookController.cs:134-165 | Always Ok. The job list grows by exactly `CallbackJob(body)` when there is one, and is unchanged otherwise. |
| Controller.ExtractMetadata | webhook/Controllers/WebhookController.cs:167-195 | The database is always read first, and a missing credential throws. It succeeds exactly when the manifest is fetched and its status is not "inprogress". "inprogress" throws the Translating exception, and a failed fetch rethrows its exception. |
| Sample.CallbackUrl | forgesample/Controllers/WebhookController.cs:29 | The `FORGE_WEBHOOK_CALLBACK_URL` setting verbatim, null when missing, with no suffix. |
| Sample.FolderOfHref | forgesample/Controllers/WebhookController.cs:35-38 | A null href throws `NullReference`. A href throws `IndexOutOfRange` exactly when it has no '/'. |
| Sample.FolderOfHrefAgrees | forgesample/Controllers/WebhookController.cs:35-38 | The inline parsing throws on the same hrefs as `ExtractFolderIdFromHref` and finds the same folder id. Where it returns early, the extractor answers "". |
| Sample.FolderOfFolderHref | forgesample/Controllers/WebhookController.cs:35-38 | Any href ending in "folders/" + id is accepted with that id, the empty id included. |
| Sample.FolderOfHrefValue | forgesample/Controllers/WebhookController.cs:35-38 | On a href with a '/', the answer is the last segment when the one before it is "folders", and no folder otherwise. |
| Sample.FolderOfHrefSegments | forgesample/Controllers/WebhookController.cs:35-38 | An accepted folder id, the empty one included, is the last segment, and "folders" is the one before it. |
| Sample.FolderOfHrefSound | forgesample/Controllers/WebhookController.cs:35-38 | An accepted folder id, the empty one included, comes only from a href that is a segment prefix + "folders/" + that id, with no '/' in the id (the converse of `FolderOfFolderHref`). |
| Sample.FolderOfHrefRejects | forgesample/Controllers/WebhookController.cs:36-38 | A href with a '/' whose second segment from the end is not "folders" names no folder, so the action returns early. |
| Sample.GetHooks | forgesample/Controllers/WebhookController.cs:33-46 | A non-folder href gives null with no call, and a malformed one throws. Otherwise the session is read and the `VersionAdded` hooks of the last segment are listed; a missing session throws `NullReference`. |
| Sample.CreateHook | forgesample/Controllers/WebhookController.cs:55-66 | A non-folder href does nothing. Otherwise it reads the session and registers exactly one `VersionAdded` hook on the last segment. |
| Sample.CreateHookRegistersAtMostOnce | forgesample/Controllers/WebhookController.cs:57-65 | A request registers at most one hook, only as its second call, and only on the folder the href names. |
| Sample.EmptyFolderIdIsSent | forgesample/Controllers/WebhookController.cs:37-43 | A href ending in "folders/" sends an empty folder id to the listing. The newer controller's guard rejects the same id as blank. |
| Sample.WebhookCallback | forgesample/Controllers/WebhookController.cs:70-73 | The callback calls nothing. |

## Left out

- The network, RestSharp's URL templating and encoding, the Forge SDK
  (`HubsApi`, `DerivativesApi`) and the session and credential stores
  are not modelled; they are oracles or parameters. An oracle's answer
  depends only on the request: time and earlier calls do not change it.
- Webhook.DMWebhook.GetHubRegion: an exception raised inside the SDK
  call, or a hub without a region, is not modelled; the region is always
  returned. The same holds for the `ExecuteTaskAsync` calls of `Hooks`,
  `CreateHook` and `DeleteHook`.
- Webhook.DMWebhook.DeleteHook: every listed hook is assumed to have a
  `hookId`. A hook without one would make `status.Add(null, ...)` throw
  `ArgumentNullException`, and the model's hook ids are strings that are
  never null.
- Webhook.DMWebhook.Hooks: a response whose `Data` is null (a failed
  listing) is not modelled; the oracle always gives a list.
- `ToLower` is modelled on ASCII letters only. The identifiers it is applied
  to are ASCII, so culture-specific casing does not arise.
- Controller.CallbackJob: the JSON values are modelled as present or
  missing strings. A field holding a non-string JSON value, which
  `ToString()` would render as its JSON text, is not distinguished.
- Controller.ExtractMetadata: an exception from `FromDatabaseAsync`
  itself (outside the try block) is not modelled. A manifest without
  a `status` is modelled as a status other than "inprogress".
  `Base64Encode` is a function parameter: it is base64 from section 4 of
  RFC 4648 over the UTF-8 bytes, which is library behaviour.
- Hangfire internals are not modelled: durability, the retry back-off,
  and the actual run of the delayed job. Scheduling is an append to
  `Scheduler.jobs`.
- Async/await, `Console.WriteLine`, the `dynamic`/`JObject` typing, and
  every `GetHookData.Hook` field other than `hookId`.
- The older sample's own `DMWebhook` client (namespace `forgesample.Forge`)
  is not part of this model. Its `Hooks` and `CreateHook` are recorded as
  opaque calls, and the hooks a listing returns come from an oracle.
- The JavaScript tree and button UI and the ASP.NET start-up and session
  configuration (`Global.asax`) are not part of this model.
