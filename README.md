# vk-archiver in Dafny

A verified model of the core of vk-archiver, a tool that downloads photos, documents, videos, stories and wall posts from the VK social network. The model covers two packages.

`vk_photos` holds:
- the downloaders (group, user, chat, photos, documents, videos, stories, wall);
- the helpers they share (`functions.py`, `utils/vk_utils.py`);
- the id validator (`utils/validation.py`);
- the command-line checks (`main.py`).

`vk_archiver` holds the utilities both packages use:
- the sliding-window rate limiter with retry and backoff;
- the consistency lock file of downloaded identifiers;
- the per-type resume state store;
- atomic file writes;
- the exception hierarchy;
- the duplicate checker.

The model takes the form of the source:
- Objects whose methods update their fields are classes with `modifies` clauses:
  - `RateLimitedVKAPI`'s window;
  - `ConsistencyManager`'s set;
  - `TypeStateStore`'s state;
  - the filesystem;
  - `GroupPhotoDownloader`'s photo list.
- The fetch loops are methods with loop invariants. Each is proved against a specification function.
- The pure helpers are functions. The properties the source promises about them are proved as lemmas.

The model treats the outside world as follows:
- The VK API is an abstract page function: the items a call at each offset returns.
- HTTP answers, the clock, random jitter and the declension library are parameters.
- Time is in integer milliseconds.
- Concurrent downloads run one after another in list order.
- Files on disk are a map from path to bytes. The downloaders take a snapshot of the files that exist before a run.

Notes on the source:
- `Utils.check_user_id`, `check_group_id` and `check_chat_id` in `vk_photos/main.py` do not call `vk_photos/utils/validation.py`. They reimplement the same rule, through the `Utils` instance's own session. The model shares one definition of the rule (`Validation.Check`) and keeps the session apart (`Cli.Session`); the session is unauthenticated until `auth_by_token` runs.
- Three pairs of files are the same code:
  - `vk_photos/utils/rate_limiter.py` and `vk_archiver/utils/rate_limiter.py`: the same sliding window, but the photos copy has no retry loop. Each copy has its own module.
  - `vk_photos/utils/state.py` and `vk_archiver/utils/state.py`: identical. One module, `StateStore`, models both.
  - `vk_photos/filter.py` and `vk_archiver/filter.py`: identical. One module, `Duplicates`, models both.
- `vk_photos/utils/consistency.py` is not part of this model. The consistency manager modelled is the one in `vk_archiver/utils/consistency.py`.
- Neither rate limiter checks `requests_per_second` in its constructor. A window built with a limit of 0 or less reads `_request_times[0]` of an empty deque, which raises IndexError. The model keeps this: `RateLimiting.IndexErrorNeedsNonPositiveLimit`.
- In `GroupPhotoDownloader.get_single_post` (`vk_photos/downloaders/group.py:196-214`), the branch for video attachments sits inside a string literal, so it never runs. The model gives a post's videos no branch: only its photos are recorded.

## Model

| member | source | states |
|---|---|---|
| RateLimiting.StaleCount | vk_archiver/utils/rate_limiter.py:70-73 | the number of entries the eviction loop pops is at most the window size, and the first entry it keeps is less than 1000 ms old |
| RateLimiting.Evict | vk_archiver/utils/rate_limiter.py:69-73 | after eviction the window is empty or its oldest entry is less than 1000 ms old |
| RateLimiting.EvictDropsOnlyOld | vk_archiver/utils/rate_limiter.py:69-73 | every entry eviction removes is at least 1000 ms old, and only a prefix is removed |
| RateLimiting.EvictLeavesOnlyFresh | vk_archiver/utils/rate_limiter.py:69-73 | in a time-ordered window, every entry left after eviction is less than 1000 ms old (the same loop is vk_photos/utils/rate_limiter.py:56-59) |
| RateLimiting.EvictIdempotent | vk_archiver/utils/rate_limiter.py:69-73 | evicting twice at the same time removes nothing more |
| RateLimiting.EvictLater | vk_archiver/utils/rate_limiter.py:69-73 | evicting at `now` and then at a later time is the same as evicting once at the later time |
| RateLimiting.SleepsExceedMargin | vk_archiver/utils/rate_limiter.py:76-89 | every wait taken is `1000 - age(oldest) + 500` ms, which is more than 500 ms, so the "no need to wait" branch at lines 87-89 is never taken; there is at most one sleep per clock reading |
| RateLimiting.AdmissionWithinLimit | vk_archiver/utils/rate_limiter.py:76-81 | a call is admitted only while the window is below the limit; after admission the window holds at most `limit` entries and ends with the admission time |
| RateLimiting.IndexErrorNeedsNonPositiveLimit | vk_archiver/utils/rate_limiter.py:76-77 | reading the oldest entry of an empty window that counts as full (an IndexError) can only happen with a limit of zero or less |
| RateLimiting.SleepThenAdmit | vk_archiver/utils/rate_limiter.py:64-86 | after sleeping the computed wait, the next pass finds the oldest entry evicted and admits the call |
| RateLimiting.WaitKeepsOrder | vk_archiver/utils/rate_limiter.py:64-81 | if the clock never runs backwards, the window stays in time order |
| RateLimiting.StatsOf | vk_archiver/utils/rate_limiter.py:267-273 | `requests_remaining` is `max(0, limit - size)`: it is zero exactly when the window is full, and otherwise it plus the size is the limit |
| RateLimiting.StatsDoNotChangeAdmission | vk_archiver/utils/rate_limiter.py:261-265 | the eviction `get_stats` performs does not change the next admission decision made at the same time |
| RateLimiting.MethodPath | vk_archiver/utils/rate_limiter.py:106-109 | the dotted method name is split into at least one segment; no segment contains '.', and joining the segments with '.' gives the name back |
| RateLimiting.SlidingWindow.constructor | vk_archiver/utils/rate_limiter.py:43-45 | the limit is stored unchecked and the window starts empty |
| RateLimiting.SlidingWindow.EvictOld | vk_archiver/utils/rate_limiter.py:69-73 | the `popleft` loop leaves exactly `Evict` of the old window and keeps the limit |
| RateLimiting.SlidingWindow.WaitIfNeeded | vk_archiver/utils/rate_limiter.py:56-89 | the admission loop, with one clock reading per pass, ends with the outcome, sleeps and window that `WaitSpec` gives for the old window (the same loop is vk_photos/utils/rate_limiter.py:42-75) |
| RateLimiting.SlidingWindow.SetRequestsPerSecond | vk_archiver/utils/rate_limiter.py:241-251 | a value of 0 or less raises ValueError "Requests per second must be positive" and changes nothing; any other value is stored (the same setter is vk_photos/utils/rate_limiter.py:168-178) |
| RateLimiting.SlidingWindow.GetStats | vk_archiver/utils/rate_limiter.py:254-273 | evicts first, then reports `StatsOf` of the limit and the window that is left (the same method is vk_photos/utils/rate_limiter.py:181-200) |
| ArchiverRateLimiter.CallAttempts | vk_archiver/utils/rate_limiter.py:135-165 | the API is invoked at most `max_retries + 1` times. A failure is raised only after exactly that many invocations, and it is the last invocation's error. A success is the first invocation that returned. Every invocation before the last one is followed by a retry |
| ArchiverRateLimiter.CallFromRetry | vk_archiver/utils/rate_limiter.py:159-190 | a failed attempt with retries left records one retry, then the call goes on from the next attempt |
| ArchiverRateLimiter.CallFromEnds | vk_archiver/utils/rate_limiter.py:137-165 | an attempt ends the call when the admission ends the loop, when the API returns, or when the failure makes `attempt > max_retries`; in the last case the error is re-raised |
| ArchiverRateLimiter.CallRetriesFollow | vk_archiver/utils/rate_limiter.py:145-190 | the retries of a call follow the failed attempts in order, each with its counter, its backoff and its log line |
| ArchiverRateLimiter.CallBackoffs | vk_archiver/utils/rate_limiter.py:152-154 | the `j`-th retry follows failed attempt `j` and waits `base * 2^j` plus that attempt's jitter, which lies between `base * 2^j` and that plus the jitter bound. Timeouts and other errors get the same wait; the rate-limit text match (lines 167-190) only picks the log line |
| ArchiverRateLimiter.Without | vk_archiver/utils/rate_limiter.py:131 | `_rl_timeout` is removed from the keyword arguments and every other argument is kept |
| ArchiverRateLimiter.TimeoutFor | vk_archiver/utils/rate_limiter.py:131-133 | a `_rl_timeout` argument that is not None overrides the default; an absent or None one gives the default |
| ArchiverRateLimiter.RateLimitedVKAPI.constructor | vk_archiver/utils/rate_limiter.py:26-50 | stores the limit, retries, backoff base, jitter and default timeout; the window starts empty |
| ArchiverRateLimiter.RateLimitedVKAPI.Call | vk_archiver/utils/rate_limiter.py:115-190 | the request goes to the dotted path, without `_rl_timeout`, with the chosen timeout; the result, the retries and the new window are those of `CallFrom` from attempt 0 |
| ArchiverRateLimiter.RateLimitedVKAPI.Attempts | vk_archiver/utils/rate_limiter.py:135-190 | the `while True` retry loop computes exactly `CallFrom` from attempt 0 |
| ArchiverRateLimiter.RateLimitedVKAPI.AttemptOnce | vk_archiver/utils/rate_limiter.py:136-190 | one pass of the loop either finishes the call as `CallFrom` says, or records one retry and leaves the rest of the call to the next attempt |
| PhotosRateLimiter.CallSpec | vk_photos/utils/rate_limiter.py:116-117 | `call` invokes the API once when admitted and never otherwise; it succeeds exactly when admitted and the API returned, and it passes on the API's error unchanged |
| PhotosRateLimiter.RateLimitedVKAPI.constructor | vk_photos/utils/rate_limiter.py:25-40 | the limit is stored unchecked and the window starts empty |
| PhotosRateLimiter.RateLimitedVKAPI.Call | vk_photos/utils/rate_limiter.py:101-117 | one `_wait_if_needed`, then at most one call to the dotted path, with no retry; the window changes as the admission loop says |
| PhotosRateLimiter.CallUnderLimitInvokesOnce | vk_photos/utils/rate_limiter.py:62-67 | when the window is below the limit after eviction, `now` is appended and the call proceeds at once, with no sleep and exactly one invocation |
| Consistency.ElementSet | vk_archiver/utils/consistency.py:69 | the set holds exactly the list's elements |
| Consistency.PySet | vk_archiver/utils/consistency.py:69 | `set(...)` of a list of hashable values is the set of its elements; it raises TypeError for a list holding an unhashable value and for None, a boolean or a number |
| Consistency.Load | vk_archiver/utils/consistency.py:49-81 | a missing, unreadable or corrupt file loads as the empty set; a valid JSON document that is not an object raises |
| Consistency.SaveLoadRoundTrip | vk_archiver/utils/consistency.py:95-104 | a fresh load of what `_save_downloaded_files` wrote gives back exactly the saved set, and `total_files` is its size |
| Consistency.ConsistencyManager.constructor | vk_archiver/utils/consistency.py:35-47 | on a file that loads, the set in memory is the loaded set and it matches the file |
| Consistency.ConsistencyManager.Open | vk_archiver/utils/consistency.py:35-47 | the manager is built exactly when loading does not raise, and then holds the loaded set |
| Consistency.ConsistencyManager.Save | vk_archiver/utils/consistency.py:83-116 | the file afterwards holds the current set, and the set is unchanged |
| Consistency.ConsistencyManager.IsAlreadyDownloaded | vk_archiver/utils/consistency.py:118-131 | true exactly when the identifier is in the set in memory |
| Consistency.ConsistencyManager.MarkAsDownloaded | vk_archiver/utils/consistency.py:133-148 | the identifier is in the set afterwards; the set grows by one and the file is rewritten exactly when the identifier was absent; otherwise the file is untouched |
| Consistency.ConsistencyManager.GetDownloadedCount | vk_archiver/utils/consistency.py:150-157 | the size of the set |
| Consistency.ConsistencyManager.GetDownloadedFiles | vk_archiver/utils/consistency.py:159-166 | the set as a value, so later changes to the manager do not reach it |
| Consistency.ConsistencyManager.ClearDownloadedFiles | vk_archiver/utils/consistency.py:168-177 | the set is empty afterwards, and the empty set is written |
| Consistency.ConsistencyManager.RemoveDownloadedFile | vk_archiver/utils/consistency.py:179-196 | returns true exactly when the identifier was present; afterwards it is absent and nothing else changed; the file is rewritten only when something was removed |
| Consistency.ConsistencyManager.Exit | vk_archiver/utils/consistency.py:216-228 | on context exit the set is saved only when it is non-empty |
| StateStore.LoadState | vk_archiver/utils/state.py:33-42 | a missing file, a file that does not decode and a document that is not an object all load as the empty state; otherwise the top-level object is the state |
| StateStore.SectionOf | vk_archiver/utils/state.py:46 | `state.get(t) or {}`: an unseen or falsy section reads as the empty dict, a dict reads as its fields, and a truthy non-dict raises |
| StateStore.UpdateSectionFacts | vk_archiver/utils/state.py:51-53 | an update succeeds exactly when the section reads as a dict; the section becomes its old fields merged with the mapping, and every other section is as it was |
| StateStore.UpdateSectionField | vk_archiver/utils/state.py:51-53 | after `update(t, {key: v})`, the section's `key` reads `v` and the other sections are untouched |
| StateStore.PersistOffsetsLast | vk_archiver/utils/state.py:49-53 | a sequence of one-field updates to a dict section succeeds; the field ends at the last value written, and the other sections are untouched |
| StateStore.TypeStateStore.constructor | vk_archiver/utils/state.py:28-31 | the store loads the state file once, as `LoadState` says |
| StateStore.TypeStateStore.Get | vk_archiver/utils/state.py:44-47 | an unseen section gives the empty dict and a dict section gives its fields, as a copy; a truthy non-dict section raises |
| StateStore.TypeStateStore.Update | vk_archiver/utils/state.py:49-56 | the section becomes its old fields overwritten by the mapping and the others stay; the write succeeds exactly when the atomic write does, and the state file then encodes the whole state; a truthy non-dict section raises and changes nothing; on success the files are the old ones without the temporary file plus the state file, and the parent directories now exist; on failure no file but the temporary one has changed and no directory is removed |
| StateStore.UpdateSections | vk_archiver/utils/state.py:51-53 | key by key, the updated section reads the mapping's value where the mapping has the key and its old value elsewhere; every other section is unchanged |
| StateStore.ReloadAfterUpdate | vk_archiver/utils/state.py:55-56 | a store opened on the file an update wrote sees exactly the state that update left (vk_photos/utils/state.py is the same code) |
| Files.TmpPath | vk_archiver/utils/file_ops.py:44 | the temp path is in the same directory, its file name is the target's with ".tmp" appended, and it is never the target |
| Files.FileSystem.MakeDirs | vk_archiver/utils/file_ops.py:43 | `mkdir(parents=True, exist_ok=True)` creates the directory and every missing ancestor; it fails, changing nothing, when a file stands on the way |
| Files.FileSystem.WriteFile | vk_archiver/utils/file_ops.py:45-46 | writing creates or truncates exactly that file; it fails when the path is a directory or its parent is not one |
| Files.FileSystem.Replace | vk_archiver/utils/file_ops.py:48 | after the rename the target holds the temp file's bytes and the temp file is gone |
| Files.AtomicWriteBytes | vk_archiver/utils/file_ops.py:36-49 | returns `len(data)`; on success the target holds exactly `data`, the temp path is gone, and no other file changed apart from the parent directories created; a failure leaves at most the temp file behind |
| Files.WriteYaml | vk_archiver/utils/file_ops.py:51-60 | the rendered payload is written atomically and its byte count is returned |
| Files.NewFileNames | vk_archiver/utils/file_ops.py:36-49 | writing a file that did not exist adds exactly its name to the files new since a given start |
| Files.CreateDir | vk_archiver/utils/file_ops.py:16-33 | an existing path is left alone; otherwise the directory is created with its parents. Something exists at the path afterwards unless an error was raised, and no file changes, so a second call does nothing |
| Exceptions.Str | vk_archiver/utils/exceptions.py:43-47 | `"message: details"` when the details are non-empty, otherwise the message alone |
| Exceptions.NewError | vk_archiver/utils/exceptions.py:24-41 | the constructor stores the message, details and original exception unchanged, and the result is a VKScroblerError |
| Exceptions.NewRateLimitError | vk_archiver/utils/exceptions.py:249-275 | a RateLimitError is an APIError and a VKScroblerError; it passes `api_method` on, leaves `response_data` None and stores `retry_after` |
| Exceptions.AllAreBase | vk_archiver/utils/exceptions.py:50-364 | every error of the hierarchy is a VKScroblerError |
| Exceptions.ApiErrorInstances | vk_archiver/utils/exceptions.py:156-249 | only APIError itself and RateLimitError are APIErrors |
| Exceptions.StrWithoutDetails | vk_archiver/utils/exceptions.py:43-47 | with no details, `str(e)` is the message, for every subclass, because `__str__` is inherited |
| ExampleIntegration.PhotoId | vk_photos/utils/example_integration.py:41-53 | the identifier exists exactly for a dict photo (a missing key reads as 0) |
| ExampleIntegration.PhotoIdIsFileStem | vk_photos/utils/example_integration.py:41-53 | when both keys are present, the identifier plus ".jpg" is the file name the downloader's naming rule gives the photo |
| ExampleIntegration.PhotoIdDefaults | vk_photos/utils/example_integration.py:41-53 | a dict with neither "owner_id" nor "id" gets the identifier "0_0" |
| ExampleIntegration.Target | vk_photos/utils/example_integration.py:148-150 | the photo's file lies directly in the output folder |
| ExampleIntegration.ExamplePhotoDownloader.Open | vk_photos/utils/example_integration.py:23-39 | the output folder is created with its parents unless a file stands in the way; the lock file defaults to `.downloads_lock.json` in the output folder; the manager starts with the identifiers the lock file holds; no file changes |
| ExampleIntegration.ExamplePhotoDownloader.ShouldDownload | vk_photos/utils/example_integration.py:55-92 | download exactly when the identifier is not recorded and no file exists at the target; an existing file gets its identifier recorded; otherwise the record is unchanged |
| ExampleIntegration.ExamplePhotoDownloader.DownloadSingle | vk_photos/utils/example_integration.py:136-158 | succeeds exactly when the target already existed or the output folder exists; only a missing target gets a new empty file; folders never change |
| ExampleIntegration.ExamplePhotoDownloader.Step | vk_photos/utils/example_integration.py:104-130 | the photo is downloaded exactly when it was not settled (recorded, or its file present); records only grow; existing files are kept; a download adds exactly one record |
| ExampleIntegration.ExamplePhotoDownloader.DownloadPhotos | vk_photos/utils/example_integration.py:94-134 | succeeds exactly when every photo is a dict; old files are kept and every new file is an empty file of one of the photos; the count is exactly the number of new files, and at most the number of photos and of new records; afterwards every photo is settled, and when all were settled before the count is 0 |
| ExampleIntegration.ExamplePhotoDownloader.AdvanceFiles | vk_photos/utils/example_integration.py:104-130 | after one more photo, every file new since the start is still an empty file of one of the photos |
| ExampleIntegration.ExamplePhotoDownloader.AdvanceSettled | vk_photos/utils/example_integration.py:104-130 | after one more photo, the photos so far are settled, and a photo is downloaded only when it was not settled, so never when all were settled at the start |
| ExampleIntegration.ExamplePhotoDownloader.RunTwice | vk_photos/utils/example_integration.py:94-134 | a second run over the same photos downloads nothing |
| ExampleIntegration.ExamplePhotoDownloader.Stats | vk_photos/utils/example_integration.py:160-171 | the number of recorded identifiers, the lock file and the output folder |
| Validation.QueryId | vk_photos/utils/validation.py:223-245 | a chat is queried with the peer id 2000000000 + id, a user or group with the id itself |
| Validation.Validate | vk_photos/utils/validation.py:52-93 | a ValidationError exactly when `int()` rejects the id; a ResourceNotFoundError names the entity kind and the id; an APIError names the API method and keeps the cause; nothing else is raised; a ResourceNotFoundError exactly when the id parses and the API answers that the entity is missing, an APIError exactly when the id parses and the call fails or its answer is unreadable |
| Validation.CheckIsValidate | vk_photos/utils/validation.py:23-93 | `check_*` returns True exactly when `validate_*` returns without raising |
| Validation.CheckUserOrGroup | vk_photos/utils/validation.py:23-50 | a user or group exists exactly when the id parses and the API answers with a sized value of non-zero length |
| Validation.CheckChat | vk_photos/utils/validation.py:223-255 | a chat exists exactly when the id parses and the conversation of peer 2000000000 + id has a non-zero "count" |
| Validation.ValidateChatQueriesPeer | vk_photos/utils/validation.py:257-279 | the chat validator depends only on what the API says about peer 2000000000 + id |
| Validation.CheckEach | vk_photos/utils/validation.py:95-120 | true exactly when every piece passes; stops at the first piece that fails, and every piece before it passed |
| Validation.CheckIds | vk_photos/main.py:226-242 | `check_user_ids` / `check_group_ids`: true exactly when every comma-separated piece checks out; the first failing piece is the last one checked |
| Cli.ValidateId | vk_photos/main.py:45-69 | no option gives None; an id is returned unchanged exactly when `int()` accepts it and it lies in [1, 2147483647]; otherwise BadParameter "Invalid user ID: ..." |
| Cli.ValidateIdSameRule | vk_photos/main.py:71-121 | user, group and chat ids are accepted by the same rule |
| Cli.ValidateIdRendered | vk_photos/main.py:45-69 | the decimal text of an integer is accepted exactly when the integer lies in [1, 2147483647] |
| Cli.AcceptedIdParses | vk_photos/main.py:209-224 | for an accepted id the existence check reduces to the API's answer about that id |
| Cli.ValidateConfig | vk_photos/main.py:151-164 | a dict configuration is accepted exactly when it has neither a "login" nor a "password" key; a value that is not a container raises |
| Cli.TokenOnlyConfigPasses | vk_photos/main.py:151-164 | a configuration holding a token and no credentials is accepted |
| Cli.ChatTitle | vk_photos/main.py:336-340 | the raw title agrees with the title helper's reading of the same conversation, and is missing exactly when that one is |
| Cli.ChatTitlePeer | vk_photos/main.py:336-340 | the title depends only on the conversation of peer 2000000000 + chat id |
| Cli.AuthByToken | vk_photos/main.py:184-207 | a session is authenticated exactly when the configuration has a truthy token and logging in with it succeeds, and it then uses that login's API; a dict without a token fails with "VK access token is required" |
| Cli.SingleGate | vk_photos/main.py:406-413 | the single-id check of `user`, `group` and the chat commands: it goes on exactly when the option is given, in range, the session is authenticated and the API names an existing entity, and it goes on with the id as given; an in-range id the check rejects fails with "<Kind> with ID <id> does not exist" |
| Cli.SingleCommand | vk_photos/main.py:406-416 | as written, a command goes on exactly when the gate passes on the session it is given and the later `auth_by_token` succeeds |
| Cli.FreshCommandRejects | vk_photos/main.py:406-416 | as written, every single-id command fails in a fresh process, and an in-range id is reported as not existing, because the check runs before `auth_by_token` |
| Cli.AuthFirstCommand | vk_photos/main.py:406-416 | authenticating first: a command goes on exactly when the id is given and in range, the token logs in, and that login's API names an existing entity; otherwise an in-range id of a missing entity fails with "does not exist" |
| Cli.StrippedPieces | vk_photos/main.py:433 | one piece per comma-separated part, at least one, each stripped of surrounding whitespace |
| Cli.GateEach | vk_photos/main.py:435-439 | all pieces go on exactly when every one passes; otherwise the error is that of the first piece that fails |
| Cli.ListGate | vk_photos/main.py:431-440 | the `users`/`groups` gate: all stripped pieces go on exactly when each passes the single-id gate under the session; else the first failure's error |
| Cli.ListGateAdmits | vk_photos/main.py:431-440 | a list goes on exactly when the session is authenticated and every stripped piece is in range and names an existing entity |
| Cli.FreshListRejects | vk_photos/main.py:431-440 | as written, `users` and `groups` reject the first id in a fresh process, so no list goes on |
| Cli.AuthFirstListCommand | vk_photos/main.py:431-441 | authenticating first: a list goes on exactly when the token logs in and every stripped piece is in range and names an existing entity under that login; it goes on with the stripped pieces |
| VkUtils.SanitizeTitleForFs | vk_photos/utils/vk_utils.py:107-130 | the result holds none of the ten replaced characters, has no surrounding whitespace and is never longer than the title |
| VkUtils.SanitizeTitleForFsIdempotent | vk_photos/utils/vk_utils.py:107-130 | sanitising twice is sanitising once |
| VkUtils.SanitizeTitleForFsKeeps | vk_photos/utils/vk_utils.py:107-130 | a title that is already clean comes back unchanged |
| VkUtils.ResolveGroup | vk_photos/utils/vk_utils.py:132-171 | resolution succeeds exactly when the response has a first group whose "id" is an integer; the folder is "{id}-{sanitised name}" |
| VkUtils.FolderNameDetermines | vk_photos/utils/vk_utils.py:157-161 | two resolved groups with the same folder name have the same id and the same sanitised title |
| VkUtils.GroupTitle | vk_photos/utils/vk_utils.py:283-290 | the title exists exactly when the group has a string "name"; it holds no '/', '\|' or '.', has no surrounding whitespace and is never longer than the name |
| VkUtils.GroupTitleKeeps | vk_photos/utils/vk_utils.py:283-290 | a name free of '/', '\|', '.' and edge whitespace comes back unchanged |
| VkUtils.GetGroupTitle | vk_photos/utils/vk_utils.py:264-290 | the title of the first group of the response, missing when there is no first group or it has no title |
| VkUtils.ChatPeer | vk_photos/utils/vk_utils.py:311-313 | the peer exists exactly when the chat id parses, and equals 2000000000 + the id |
| VkUtils.ChatPeerOf | vk_photos/utils/vk_utils.py:311-313 | a rendered chat id's peer is that id plus 2000000000, so different chats have different peers |
| VkUtils.GetChatTitle | vk_photos/utils/vk_utils.py:292-315 | a title is only found for a chat id that gives a peer |
| VkUtils.GetChatTitleExact | vk_photos/utils/vk_utils.py:292-315 | a title exists exactly when the chat id gives a peer and `["items"][0]["chat_settings"]["title"]` of that peer's conversation is readable, and it is that title as a string |
| VkUtils.GetUsername | vk_photos/utils/vk_utils.py:242-262 | the name exists exactly when the first user has both names; it is the first name, one space, the last name |
| VkUtils.UsernameFirstWord | vk_photos/utils/vk_utils.py:242-262 | when the first name holds no space, it is the first space-separated word of the user name |
| Functions.GenderOf | vk_photos/functions.py:31-42 | female exactly when `sex == 1` (True included), male exactly when `sex == 2` |
| Functions.Decline | vk_photos/functions.py:17-42 | for sex 1 or 2 both names are put in the genitive of that gender and joined by one space |
| Functions.DeclineUnchanged | vk_photos/functions.py:17-42 | for any other sex the result is the undeclined "first last", as `get_username` builds it |
| Functions.DownloadPhoto | vk_photos/functions.py:68-86 | an existing target is left alone; a file is written exactly when the target is new, the reply has status 200 and the folder exists, and it holds the reply's body; otherwise no file changes; folders never change |
| Functions.FileName | vk_photos/functions.py:101 | the name exists exactly when the item has "owner_id" and "id", and is "{owner_id}_{id}.{ext}" |
| Functions.PhotoJobsEach | vk_photos/functions.py:89-105 | one job per photo, in order, requesting its "url" into "{owner_id}_{id}.jpg"; it raises exactly when a photo lacks one of the three keys |
| Functions.DownloadPhotos | vk_photos/functions.py:89-105 | raises exactly when a photo lacks a key, and then changes nothing; no existing file is touched and no folder made; every target that did not exist, got a 200 reply and has an existing folder is written, and every new file holds the body of the first job with a 200 reply that targets it |
| Functions.VideoJobsEach | vk_photos/functions.py:128-153 | one job per video, in order, handing its "player" to the video downloader with the target "{owner_id}_{id}.mp4"; it raises exactly when a video lacks one of the three keys |
| Naming.SanitizeClean | vk_photos/downloaders/photos.py:28-41 | a sanitised title holds none of the replaced characters, has no surrounding whitespace and is never longer |
| Naming.SanitizeIdempotent | vk_photos/downloaders/documents.py:27-47 | sanitising twice is sanitising once |
| Naming.SanitizeSameSet | vk_photos/downloaders/photos.py:28-41 | the result depends only on which characters are replaced, not on the order of the `replace` calls |
| Naming.SanitizeKeeps | vk_photos/downloaders/documents.py:27-47 | a name free of the replaced characters and of edge whitespace comes back unchanged |
| Naming.PathOf | vk_photos/downloaders/photos.py:46 | the text before the first '?', a prefix of the URL holding no '?' |
| Naming.ExtFromUrl | vk_photos/downloaders/stories.py:25-31 | the extension is the default or 1 to 5 lower-case alphanumerics; a path without '.' gives the default |
| Naming.ExtFromUrlOf | vk_photos/downloaders/photos.py:44-52 | a URL whose path ends in "." and 1 to 5 alphanumerics yields them lower-cased, whatever query follows |
| Naming.FirstQuality | vk_photos/downloaders/videos.py:33-45 | the first key of the quality order whose value is a non-empty string, with no earlier key holding one |
| Naming.FirstHttp | vk_photos/downloaders/videos.py:47-50 | the first value in insertion order that is a string starting with "http", none earlier being one |
| Naming.SelectFromFiles | vk_photos/downloaders/videos.py:28-51 | the chosen URL is a non-empty string value of the dict; nothing is chosen exactly when no quality key holds a URL and no value starts with "http" |
| Naming.SelectPrefersQuality | vk_photos/downloaders/videos.py:33-45 | the highest quality key holding a URL wins |
| Naming.LastSizeUrl | vk_photos/downloaders/photos.py:172-176 | a missing or empty "sizes" gives no URL; otherwise the "url" of the last size; a photo that is not a dict raises |
| Naming.Concurrency | vk_photos/downloaders/documents.py:98 | at least 1, and the given number when that is at least 1 |
| Downloads.FreshJobsAppend | vk_photos/downloaders/photos.py:171-196 | jobs whose targets are new and whose URLs are non-empty stay so when more such jobs are appended |
| Downloads.FreshJobsCons | vk_photos/downloaders/documents.py:159-170 | a job with a new target and a URL, put in front of such jobs, keeps them so |
| Downloads.Pending | vk_photos/downloaders/documents.py:168-169 | the jobs started are among the jobs, in order, and are exactly those whose target does not exist |
| Downloads.DispatchPending | vk_photos/downloaders/documents.py:159-180 | the download loop starts exactly the jobs whose target does not exist, in order |
| Downloads.PendingAt | vk_photos/downloaders/documents.py:168-169 | a job is started exactly when its target does not exist, and the rest follow |
| Downloads.DownloadDirect | vk_photos/downloaders/documents.py:129-140 | an existing target is left alone; a status other than 200 changes nothing; on 200 the body replaces the target through an atomic write, and the write's temporary file does not remain |
| Paging.RemainingDecreases | vk_photos/downloaders/documents.py:105-126 | moving past a page that held items leaves fewer pages ahead, so the loop ends |
| Paging.SliceBound | vk_photos/downloaders/documents.py:121 | a Python slice bound: a negative one counts from the end, one out of range is clamped |
| Paging.FetchAll | vk_photos/downloaders/documents.py:100-127 | the paging loop returns what the paging definition gives: items from the start offset and the offsets persisted after each full page |
| Paging.FetchAdvances | vk_photos/downloaders/documents.py:123-126 | after a full page under the cap the loop persists the next offset and goes on from it |
| Paging.FetchUncapped | vk_photos/downloaders/documents.py:105-127 | without a cap the loop returns the whole collection from its offset |
| Paging.FetchCapped | vk_photos/downloaders/documents.py:117-122 | with a cap m the loop returns the first m items of the collection, never more than m |
| Paging.FetchPersisted | vk_photos/downloaders/documents.py:123-126 | the first persisted offset is one page past the start, each next one is one page further, and each follows a full page |
| Paging.PersistedCons | vk_photos/downloaders/documents.py:123-126 | an offset after a full page, put in front of offsets that continue one page past it, keeps both properties |
| Paging.ResumeOffset | vk_photos/downloaders/documents.py:102-103 | an absent key starts at 0, an integer starts at itself, and a value `int()` rejects raises |
| Resumable.FetchResumedAll | vk_photos/downloaders/documents.py:100-127 | the resumed loop as the downloader runs it returns what the resumable definition gives |
| Resumable.FetchResumedRaises | vk_photos/downloaders/videos.py:74-98 | raises exactly when the stored section is not a dict or its offset is not an integer, and then persists nothing |
| Resumable.FetchResumedFrom | vk_photos/downloaders/documents.py:100-127 | the loop starts at the stored offset, and the new state is the stored state after one `update` per persisted offset |
| Resumable.FetchResumedStores | vk_photos/downloaders/documents.py:125-126 | afterwards the stored offset is the last one persisted, and no other section changed |
| Resumable.FetchResumedCapped | vk_photos/downloaders/documents.py:117-122 | with a cap m, at most m items: the first m of the collection from the stored offset |
| Resumable.FetchResumedUncapped | vk_photos/downloaders/videos.py:74-98 | without a cap, the whole collection from the stored offset |
| Photos.SanitizeTitle | vk_photos/downloaders/photos.py:28-41 | no '/', '\\', '\|', ':', '*', '?', '"', '<', '>' or '.' left, no edge whitespace, never longer than the title |
| Photos.ExtFromUrl | vk_photos/downloaders/photos.py:44-52 | "jpg", or the URL's 1 to 5 lower-case alphanumeric extension |
| Photos.PhotoStep | vk_photos/downloaders/photos.py:171-196 | a photo without sizes or without a truthy URL is skipped; a scheduled job downloads the last size's URL into "{group}-{pid}.{ext}" in the album folder, never onto an existing file; an existing target is skipped |
| Photos.AlbumJobs | vk_photos/downloaders/photos.py:171-196 | at most one job per photo, each with a URL and a target that does not exist |
| Photos.AlbumJobsAt | vk_photos/downloaders/photos.py:171-196 | the jobs of an album are those of its first photo followed by those of the rest; a photo that raises ends the run |
| Photos.CollectJobs | vk_photos/downloaders/photos.py:171-196 | the job-building loop over an album's photos gives exactly the album's jobs |
| Photos.AlbumItems | vk_photos/downloaders/photos.py:160-165 | without a budget the photos past the stored offset; with a budget at most that many; when all fit, exactly the photos past the offset |
| Photos.ReadAlbum | vk_photos/downloaders/photos.py:145-157 | an album is read only when it is a dict with an integer "id"; its state key is "album_{aid}" and its offset the stored one |
| Photos.HandledItems | vk_photos/downloaders/photos.py:160-165 | an album never handles more photos than the budget left |
| Photos.AlbumStep | vk_photos/downloaders/photos.py:141-209 | an album is handled only when it could be read |
| Photos.Run | vk_photos/downloaders/photos.py:128-211 | the run as the downloader executes it equals the run definition: albums fetched with their offsets persisted, then one album at a time |
| Photos.AlbumStepBudget | vk_photos/downloaders/photos.py:164-205 | an album handles at most the budget left, the budget drops by exactly the photos handled, and at most one job is scheduled per photo handled |
| Photos.AlbumsRunBudget | vk_photos/downloaders/photos.py:137-205 | over all albums, with `max_items = m` at most `max(m, 0)` photos are handled and no more jobs than photos |
| Photos.RunBudget | vk_photos/downloaders/photos.py:128-211 | a run with `max_items = m` schedules at most `max(m, 0)` downloads |
| Photos.FinishAlbumOffset | vk_photos/downloaders/photos.py:207-209 | after an album of n photos its stored "offset" is the old offset plus n, and every other section is unchanged |
| Photos.FinishAlbumSections | vk_photos/downloaders/photos.py:207-209 | the state after an album is the stored state with that album's offset updated |
| Photos.FinishAlbumFields | vk_photos/downloaders/photos.py:196-205 | an album appends its jobs, counts its photos as handled and takes them off the budget |
| Photos.AlbumStepFinishes | vk_photos/downloaders/photos.py:141-209 | a handled album is the read album finished with the photos it handled and the jobs they gave |
| Photos.AlbumsRunStep | vk_photos/downloaders/photos.py:141-143 | the album loop stops when the budget is spent; otherwise a handled album passes its state to the rest and one that raises ends the run |
| Photos.AlbumStepSkipsExisting | vk_photos/downloaders/photos.py:184-185 | an album schedules only jobs for files that do not exist |
| Photos.AlbumsRunSkipsExisting | vk_photos/downloaders/photos.py:141-209 | no job of a run targets an existing file, and every job has a URL |
| Documents.SanitizeFilename | vk_photos/downloaders/documents.py:27-47 | no '/', '\\', '\|', ':', '*', '?', '"', '<' or '>' left, no edge whitespace, never longer than the name |
| Documents.SanitizeFilenameKeeps | vk_photos/downloaders/documents.py:27-47 | a clean name, dots included, comes back unchanged |
| Documents.SanitizeFilenameIdempotent | vk_photos/downloaders/documents.py:27-47 | sanitising twice is sanitising once |
| Documents.ExtFromDoc | vk_photos/downloaders/documents.py:50-55 | the "ext" lower-cased when it is a string of 1 to 8 characters, otherwise "bin"; an item that is not a dict raises |
| Documents.DocTarget | vk_photos/downloaders/documents.py:163-167 | a target exists exactly when `int(d["id"])` succeeds, and lies in documents/files |
| Documents.DocTargetsDistinct | vk_photos/downloaders/documents.py:163-167 | two documents with different ids never share a file, whatever their titles and extensions |
| Documents.DocStep | vk_photos/downloaders/documents.py:159-175 | a document without a non-empty string URL is skipped; one whose id is not an integer raises; an existing target is skipped; a scheduled job fetches the URL into the document's target |
| Documents.DocJobs | vk_photos/downloaders/documents.py:159-175 | at most one job per document, each for a file that does not exist |
| Documents.DocJobsFrom | vk_photos/downloaders/documents.py:159-175 | the jobs are those of the first document followed by those of the rest; a document that raises ends the run |
| Documents.CollectDocJobs | vk_photos/downloaders/documents.py:159-175 | the job-building loop gives exactly the documents' jobs |
| Documents.Run | vk_photos/downloaders/documents.py:142-192 | the run as the downloader executes it equals the run definition |
| Documents.RunFetches | vk_photos/downloaders/documents.py:142-192 | a run keeps the documents and state the fetch loop produced, raises only when the fetch or a document raises, and schedules the documents' jobs |
| Documents.RunBounds | vk_photos/downloaders/documents.py:142-192 | with `max_items = m` at most m documents and at most one fresh job per document; the summary counts exactly those |
| Wall.DaysInMonth | vk_photos/downloaders/wall.py:38 | every month of the proleptic Gregorian calendar has 28 to 31 days |
| Wall.Timestamp | vk_photos/downloaders/wall.py:38-39 | the UTC timestamp of a date is a whole number of days |
| Wall.OrdinalIncreasing | vk_photos/downloaders/wall.py:38-39 | a later date has a larger day ordinal |
| Wall.TimestampIncreasing | vk_photos/downloaders/wall.py:27-39 | the timestamps of dates are whole days apart and strictly increase with the date |
| Wall.MonthToken | vk_photos/downloaders/wall.py:38 | a month `%m` accepts lies in 1..12 |
| Wall.DayToken | vk_photos/downloaders/wall.py:38 | a day `%d` accepts lies in 1..31 |
| Wall.ParseDate | vk_photos/downloaders/wall.py:27-39 | no date or an empty one gives None; a parsed date is a UTC midnight |
| Wall.YearOfPad4 | vk_photos/downloaders/wall.py:38 | a four-digit year is accepted by `%Y` as that year |
| Wall.MonthOfPad2 | vk_photos/downloaders/wall.py:38 | a two-digit month is accepted by `%m` as that month |
| Wall.DayOfPad2 | vk_photos/downloaders/wall.py:38 | a two-digit day is accepted by `%d` as that day |
| Wall.ParseIso | vk_photos/downloaders/wall.py:27-39 | every date written "YYYY-MM-DD" parses to the UTC midnight timestamp of that date |
| Wall.DateOf | vk_photos/downloaders/wall.py:96 | a post's date reads as 0 when absent, and reading it raises for a post that is not a dict |
| Wall.Passes | vk_photos/downloaders/wall.py:95-101 | a post passes exactly when its date is not before `since` and not after `until`; it raises exactly when reading the date raises |
| Wall.DayBounds | vk_photos/downloaders/wall.py:95-101 | a bound given as a date is that day's UTC midnight: a post at any time of the `since` day passes, and one later than midnight on the `until` day does not |
| Wall.AttLink | vk_photos/downloaders/wall.py:108-125 | every link an attachment yields belongs to the post: it carries the post id, the photo id, the owner id and a URL |
| Wall.ExtractFrom | vk_photos/downloaders/wall.py:108-126 | at most one link per attachment, each belonging to the post |
| Wall.Extract | vk_photos/downloaders/wall.py:104-127 | a post that is not a dict raises; one whose "attachments" is not a list gives no links; every link belongs to the post |
| Wall.PhotoLink | vk_photos/downloaders/wall.py:108-125 | a photo attachment with a non-empty URL gives its link |
| Wall.AttLinkExact | vk_photos/downloaders/wall.py:108-125 | an attachment yields a link exactly when it is a photo whose last size has a truthy URL, and the link is `{post_id: post["id"], photo_id: photo["id"], owner_id: photo["owner_id"], url: sizes[-1]["url"]}`; another type, empty sizes or a falsy URL is skipped |
| Wall.ExtractPhotos | vk_photos/downloaders/wall.py:104-127 | photo attachments with any non-empty sizes whose last URL is truthy give exactly one link each, in order, each that photo's link |
| Wall.UnusablePhotoSkipped | vk_photos/downloaders/wall.py:112-117 | a photo with no sizes, or whose last size has a falsy URL, adds no link and leaves the links of the other attachments as they are |
| Wall.SkippedAddsNothing | vk_photos/downloaders/wall.py:108-126 | a skipped attachment leaves the links of the rest unchanged |
| Wall.ExtractLinkCons | vk_photos/downloaders/wall.py:108-126 | an attachment that yields a link puts it ahead of the links of the rest |
| Wall.NonPhotoSkipped | vk_photos/downloaders/wall.py:109 | attachments of another type add no links |
| Wall.FilterPosts | vk_photos/downloaders/wall.py:175 | every post the filter keeps passes the date filters |
| Wall.AdvanceStep | vk_photos/downloaders/wall.py:201-209 | a run persists nothing unless it moves on after a full page, and then the next offset followed by what the rest persists |
| Wall.ProcessPage | vk_photos/downloaders/wall.py:168-199 | the loop over one page's posts, as the downloader runs it, gives the page definition's state |
| Wall.Run | vk_photos/downloaders/wall.py:129-234 | a run whose stored offset raises does nothing; otherwise it is the wall run from the stored offset |
| Wall.AllLinksAppend | vk_photos/downloaders/wall.py:190-191 | the links of the kept posts grow by the new post's links |
| Wall.ProcessKeepsConsistent | vk_photos/downloaders/wall.py:187-199 | processing a page keeps every kept post passing the filters and the links equal to those of the kept posts |
| Wall.RunConsistent | vk_photos/downloaders/wall.py:129-234 | every post a run keeps passes the date filters, and the photo links are exactly those of the kept posts |
| Wall.ProcessCap | vk_photos/downloaders/wall.py:195-199 | processing a page never takes the kept posts past `max_items` |
| Wall.RunCap | vk_photos/downloaders/wall.py:195-202 | with `max_items` above the posts already kept, a run never keeps more than `max_items` |
| Wall.RunPersisted | vk_photos/downloaders/wall.py:204-209 | the first persisted offset is one page past the stored one, each next is one page further, and each follows a full page |
| Wall.SummaryCounts | vk_photos/downloaders/wall.py:229-234 | the summary counts the kept posts and their links, with no failures |
| Videos.SelectBestVideoFile | vk_photos/downloaders/videos.py:28-51 | nothing for a non-dict; the chosen URL is a non-empty string value of the dict; nothing exactly when no quality key holds a URL and no value starts with "http" |
| Videos.SelectBestVideoPrefersQuality | vk_photos/downloaders/videos.py:37-45 | the highest `mp4_*` quality holding a URL wins |
| Videos.VideoTargetsDistinct | vk_photos/downloaders/videos.py:127 | videos with different ids never share a file |
| Videos.VideoStep | vk_photos/downloaders/videos.py:124-136 | a video raises exactly when it is not a dict or its id or owner id is not an integer; a usable file is downloaded directly, otherwise a non-empty player string goes to the video downloader, never both |
| Videos.VideosPlan | vk_photos/downloaders/videos.py:121-136 | at most one download per video |
| Videos.VideosPlanFrom | vk_photos/downloaders/videos.py:124-136 | the plan is the first video's contribution followed by the rest's; a video that raises ends the run |
| Videos.PlanVideos | vk_photos/downloaders/videos.py:121-136 | the planning loop gives exactly the videos' plan |
| Videos.FreshPlayers | vk_photos/downloaders/videos.py:149-153 | the yt-dlp jobs started are among the jobs, and none is for a file present before the loop; each job is checked against the files present at its turn; only the last job started can have raised, since a raising `download_video` ends the loop |
| Videos.DispatchPlayers | vk_photos/downloaders/videos.py:149-153 | the sequential yt-dlp loop, which adds the file a job leaves to the files present and stops at the first download that raises, starts exactly `FreshPlayers` and raises exactly when `PlayersRaise` |
| Videos.FreshPlayersAt | vk_photos/downloaders/videos.py:150-153 | a yt-dlp job is started exactly when its file is not present at its turn; if its download raises nothing after it starts, and otherwise the jobs after it see the file it leaves |
| Videos.AdmittedStarts | vk_photos/downloaders/videos.py:149-153 | in a yt-dlp loop that does not raise, every job whose file is missing at its turn is started and does not raise |
| Videos.Run | vk_photos/downloaders/videos.py:113-160 | the run as the downloader executes it, with the direct downloads finished before the yt-dlp loop and a raising yt-dlp download ending it, equals the run definition |
| Videos.RunBounds | vk_photos/downloaders/videos.py:113-160 | with `max_items = m` at most m videos and at most one download per video; exactly the direct downloads whose file did not exist are started; in a run that finishes no yt-dlp download raised, no yt-dlp job is started for a file that existed or that a direct download wrote, and a yt-dlp job starts exactly when its file existed neither before the run nor after the direct downloads and no earlier yt-dlp job for it left one |
| Videos.FreshPlayersExact | vk_photos/downloaders/videos.py:149-153 | a job is started exactly when, at its position, its file was missing before the loop, no earlier job for the same file left one, and no earlier started job raised; the loop raises exactly when a started job raises |
| Videos.FreshPlayersDistinct | vk_photos/downloaders/videos.py:149-153 | when the jobs are for distinct videos, a job is started exactly when its file was missing before the loop and no earlier job with a missing file raised |
| Videos.RunFetches | vk_photos/downloaders/videos.py:113-160 | a run keeps the offsets the fetch loop persisted; once the fetch and the plan succeed, it finishes exactly when the yt-dlp loop does not raise; a finished run keeps the videos and state the fetch loop produced and plans their downloads |
| Stories.ExtFromUrl | vk_photos/downloaders/stories.py:25-31 | the default, or 1 to 5 lower-case alphanumerics; a path without '.' gives the default |
| Stories.BestPhotoUrl | vk_photos/downloaders/stories.py:34-40 | no URL when "sizes" is not a non-empty list; otherwise the last size's "url" when it is a non-empty string; a last size that is not a dict raises |
| Stories.BestVideoUrl | vk_photos/downloaders/stories.py:43-66 | the files dict's choice when it has one; otherwise the top-level "url" exactly when that is a non-empty string |
| Stories.BestVideoPrefersQuality | vk_photos/downloaders/stories.py:55-58 | the highest `mp4_*` quality wins over the other files and the top-level URL |
| Stories.StoryTargetsDistinct | vk_photos/downloaders/stories.py:125 | stories with different ids never share a file, whatever their extensions |
| Stories.StoryStep | vk_photos/downloaders/stories.py:116-133 | a story with id 0 or no usable URL is skipped; the photo's URL ("jpg" by default) comes before the video's ("mp4" by default); reading a story that is not a dict raises |
| Stories.StoryJobs | vk_photos/downloaders/stories.py:116-133 | at most one job per story |
| Stories.StoryJobsFrom | vk_photos/downloaders/stories.py:116-133 | the jobs are the first story's followed by the rest's; a story that raises ends the run |
| Stories.CollectStoryJobs | vk_photos/downloaders/stories.py:116-133 | the loop over one bundle's stories gives exactly their jobs |
| Stories.EntryStories | vk_photos/downloaders/stories.py:109-114 | an entry's "stories" list, the entry itself when its "stories" is falsy, nothing for a non-dict |
| Stories.EntriesJobsFrom | vk_photos/downloaders/stories.py:108-133 | the jobs of the entries are the first entry's followed by the rest's |
| Stories.Entries | vk_photos/downloaders/stories.py:103-108 | falsy "items" gives no entries, a list gives its elements; iterating an int or bool raises |
| Stories.CollectMediaJobs | vk_photos/downloaders/stories.py:101-134 | the nested loop gives exactly the payload's jobs |
| Stories.Run | vk_photos/downloaders/stories.py:136-182 | the run as the downloader executes it equals the run definition |
| Stories.RunSummary | vk_photos/downloaders/stories.py:136-182 | the summary counts the jobs; exactly the jobs whose file does not exist are started; "stories" gets `last_run = True` and other sections keep their values |
| Stories.RunWithoutItems | vk_photos/downloaders/stories.py:153-157 | with no items nothing is downloaded and the summary is all zeros |
| Group.ParseGroupIds | vk_photos/downloaders/group.py:337 | one id per comma-separated piece, each stripped and converted with `int` |
| Group.Rendered | vk_photos/downloaders/group.py:337 | the decimal text of each id, in order |
| Group.RenderedPiece | vk_photos/downloaders/group.py:337 | a rendered id holds no comma and reads back, stripped, as itself |
| Group.ParseGroupIdsRoundTrip | vk_photos/downloaders/group.py:337 | any non-empty list of ids written out with commas parses back to the same list |
| Group.PhotoRecord | vk_photos/downloaders/group.py:188-195 | the record appended for a photo has type "photo" and the photo's id, owner id and URL |
| Group.OwnerOf | vk_photos/downloaders/group.py:414 | `GroupsPhotoDownloader` keeps the owner id as it is |
| Group.PhotoStep | vk_photos/downloaders/group.py:181-195 | a photo appends a record exactly when it is usable (readable, with a last size whose URL is neither null nor empty, and an owner the sign rule accepts); it is skipped exactly when it is readable and that URL is null or empty; the record carries the photo's id, its owner id with the sign rule applied, and the last size's URL |
| Group.AttachmentStep | vk_photos/downloaders/group.py:181-195 | an attachment without a type ends the loop; another type appends nothing; a photo goes through the photo step |
| Group.Collect | vk_photos/downloaders/group.py:180-216 | the loop appends at most one record per attachment and stops, keeping what it appended, at the first exception |
| Group.CollectOrigin | vk_photos/downloaders/group.py:180-216 | every record appended is the decision on some attachment |
| Group.CollectFrom | vk_photos/downloaders/group.py:181-195 | the loop from one attachment on: its decision, then the rest unless it raised |
| Group.HaltsAt | vk_photos/downloaders/group.py:180-216 | the loop over attachments raises exactly when its step raises on some attachment |
| Group.CollectAppend | vk_photos/downloaders/group.py:215-216 | the exception that ends the loop is swallowed: two runs of attachments collect what the first does, then the second's unless the first raised |
| Group.Records | vk_photos/downloaders/group.py:173-216 | the records of a post's attachments: at most one per attachment, each a photo with a usable URL |
| Group.CollectPhotos | vk_photos/downloaders/group.py:187-195 | every record appended is a photo with a URL other than None and "" |
| Group.StepSign | vk_photos/downloaders/group.py:186-195 | under both signs an attachment gets the same decision, except that negating can raise on an owner that is not a number |
| Group.NegateAll | vk_photos/downloaders/group.py:192 | each record with its owner id negated |
| Group.CollectNegated | vk_photos/downloaders/group.py:180-216 | loops whose steps agree up to negation collect the same records up to negation, until the negating one raises |
| Group.OwnerSign | vk_photos/downloaders/group.py:119-216 | `GroupPhotoDownloader` records exactly what `GroupsPhotoDownloader` records with the owner negated, up to the first owner that cannot be negated |
| Group.SinglePost | vk_photos/downloaders/group.py:173-216 | every record is a photo; a post appends records only when its "attachments" is a list, and then exactly the records of its attachments |
| Group.RecordsComplete | vk_photos/downloaders/group.py:180-216 | every usable photo attachment before the first raise gives its record, in its place between the records of the attachments before and after it |
| Group.CopyRecords | vk_photos/downloaders/group.py:137-139 | a repost raises exactly when it has no first copied post or `in` cannot search it; otherwise the records of that first copied post when it has attachments |
| Group.PostRecords | vk_photos/downloaders/group.py:131-142 | a post without "marked_as_ads" raises; an ad appends nothing; a repost uses only its first copied post; another post its own attachments |
| Group.RepostIgnoresOwnAttachments | vk_photos/downloaders/group.py:137-142 | a repost's own attachments are ignored |
| Group.VideoStep | vk_photos/downloaders/group.py:155-165 | a video is kept exactly when it has a "player", with its type, id, owner id, title and player |
| Group.ScanRaises | vk_photos/downloaders/group.py:131-142 | the post loop raises exactly when some post raises |
| Group.ScanOrigin | vk_photos/downloaders/group.py:131-142 | every record comes from an item the loop did not raise on |
| Group.ScanFrom | vk_photos/downloaders/group.py:131-142 | the loop from one item on: its records, then the rest unless it raised |
| Group.ScanAppend | vk_photos/downloaders/group.py:127-147 | a loop over two runs of items runs over the first, then over the second unless it raised |
| Group.ScanPages | vk_photos/downloaders/group.py:127-147 | a loop over a paged collection is the loop over its first page, then, after a full page that did not raise, the loop over the following pages |
| Group.GatherProvenance | vk_photos/downloaders/group.py:119-171 | every photo recorded comes from a wall post that is not an ad; every video recorded is one of the list with a "player"; no video is recorded unless videos were requested |
| Group.GroupDownloader.constructor | vk_photos/downloaders/group.py:239-240 | the downloader starts with empty photo and video lists |
| Group.GroupDownloader.ForGroup | vk_photos/downloaders/group.py:108-117 | built exactly when `int(group_id)` succeeds, with that one id, negating owner ids |
| Group.GroupDownloader.ForGroups | vk_photos/downloaders/group.py:329-338 | built exactly when every comma-separated piece parses, with those ids, keeping owner ids |
| Group.GroupDownloader.GetSinglePost | vk_photos/downloaders/group.py:173-216 | appends the post's photo records and leaves the video list alone |
| Group.GroupDownloader.AppendRecords | vk_photos/downloaders/group.py:180-216 | appends what the step decides for each attachment up to the first exception |
| Group.GroupDownloader.HandlePost | vk_photos/downloaders/group.py:131-142 | raises exactly when the post's records raise; otherwise appends them |
| Group.GroupDownloader.HandlePosts | vk_photos/downloaders/group.py:131-142 | the post loop over one page appends the page's records and raises exactly when the loop does |
| Group.GroupDownloader.HandleVideos | vk_photos/downloaders/group.py:155-165 | the video loop over one page appends the kept videos and raises exactly when the loop does |
| Group.GroupDownloader.GetPhotos | vk_photos/downloaders/group.py:119-171 | the wall pages from offset 0, then the video pages when `download_videos == "1"`; the lists grow by exactly what the page functions gather |
| Group.GroupDownloader.WallLoop | vk_photos/downloaders/group.py:126-147 | the wall paging loop appends the records of all the wall's pages up to a short page |
| Group.GroupDownloader.VideoLoop | vk_photos/downloaders/group.py:150-171 | the video paging loop appends the kept videos of all pages up to a short page |
| User.PhotoRecord | vk_photos/downloaders/user.py:90-98 | the record of a photo holds its id, owner id, URL, likes and date, each reading back as given |
| User.PhotoOf | vk_photos/downloaders/user.py:89-98 | a photo gives a record exactly when its id, owner id, last size's URL, likes count and date can all be read, and the record holds those values |
| User.AllPhotosEach | vk_photos/downloaders/user.py:56-189 | `get_photos` returns one record per photo of the saved, profile, wall and getAll sources, in that order, and raises exactly when some photo cannot be read |
| User.FetchSource | vk_photos/downloaders/user.py:75-102 | one source loop pages from offset 0 by 100 until a short page and maps every photo of every page, in order |
| User.GetPhotos | vk_photos/downloaders/user.py:56-189 | the four source loops in order, the first that raises ending the call |
| User.Insert | vk_photos/downloaders/user.py:250 | inserting keeps every element and adds one |
| User.InsertDescending | vk_photos/downloaders/user.py:250 | inserting into a list sorted newest first keeps it sorted |
| User.SortDesc | vk_photos/downloaders/user.py:250 | the result is sorted by key, largest first, and is a permutation of the input |
| User.SortByDate | vk_photos/downloaders/user.py:250 | the sort succeeds exactly when every record has an integer date; the result is newest first and a permutation of the records |
| User.SortSingle | vk_photos/downloaders/user.py:250 | a single dated record sorts to itself |
| User.IsClosed | vk_photos/downloaders/user.py:233 | a profile whose "is_closed" is falsy is open, without "can_access_closed" being read |
| User.Prelude | vk_photos/downloaders/user.py:205-233 | `main` goes on only with utils set; the folder is the user name and the profile is deleted exactly when "deactivated" is in the user info |
| User.Downloaded | vk_photos/downloaders/user.py:249-265 | photos are handed over exactly when every record is dated, newest first and as a permutation of the records; otherwise the run raises |
| User.StandInAsWritten | vk_photos/downloaders/user.py:235-242 | the closed-profile record, as written, exists when the info has "photo_max_orig" and has no "date" |
| User.ClosedProfileRaises | vk_photos/downloaders/user.py:233-250 | as written, a closed profile's run always raises in the sort, so its avatar is never downloaded |
| User.AfterPreludeAsWritten | vk_photos/downloaders/user.py:225-265 | as written, `main` after the prelude does what the corrected version does for every profile that is not closed |
| User.StandIn | vk_photos/downloaders/user.py:235-242 | the closed-profile record, dated 0, points at "photo_max_orig" |
| User.AfterPrelude | vk_photos/downloaders/user.py:225-265 | a deleted profile downloads nothing; a closed one its avatar alone; an open one every photo of its four sources, newest first, exactly when all are dated |
| User.UserMain | vk_photos/downloaders/user.py:191-277 | a run that downloads does so into the user-name folder with the photos newest first; a deleted profile only after a successful prelude |
| User.UserMainAsWritten | vk_photos/downloaders/user.py:191-277 | as written, a run raises when the prelude raises or the profile is closed, and otherwise is the corrected run |
| User.RunAll | vk_photos/downloaders/user.py:313-314 | at most one run per user |
| User.RunAllInOrder | vk_photos/downloaders/user.py:313-314 | users are handled one at a time in the given order; only the last run can have raised, and when none raised every user was handled |
| User.RunUsers | vk_photos/downloaders/user.py:301-314 | the loop over the users gives exactly those runs |
| User.UsersMain | vk_photos/downloaders/user.py:301-314 | `UsersPhotoDownloader.main`: the k-th run is the k-th user's `main`, only the last can have raised, and when none raised every user was handled |
| User.UsersMainAsWritten | vk_photos/downloaders/user.py:301-314 | as written, at most one run per user |
| User.ClosedUserAbortsUsers | vk_photos/downloaders/user.py:313-314 | as written, one closed profile aborts the whole loop: the run ends in its raise and no user after it is handled |
| User.RunAllStops | vk_photos/downloaders/user.py:313-314 | a run that raises on the k-th user ends the loop there |
| Chat.Positive | vk_photos/downloaders/chat.py:69 | `member_id > 0` holds exactly for a positive int or True, and raises for anything that is neither an int nor a bool |
| Chat.FilterAppend | vk_photos/downloaders/chat.py:66-70 | filtering a concatenation filters each part, in order |
| Chat.FilterEach | vk_photos/downloaders/chat.py:66-70 | the filter raises exactly when the test raises on some member; otherwise it keeps exactly the members the test holds for |
| Chat.FilterOne | vk_photos/downloaders/chat.py:68-70 | one member is kept, dropped, or raises |
| Chat.KeepEach | vk_photos/downloaders/chat.py:66-70 | the loop keeps exactly what the filter keeps, in order |
| Chat.FirstMatch | vk_photos/downloaders/chat.py:72 | the position of the first member equal to the one sought, no earlier member being equal |
| Chat.RemoveFirst | vk_photos/downloaders/chat.py:72 | `remove` succeeds exactly when some member is equal, and takes out the first such member only |
| Chat.RemoveFirstRemovesOne | vk_photos/downloaders/chat.py:72 | `remove` takes out exactly one member, one equal to the one sought, and keeps the others with their counts |
| Chat.MemberIds | vk_photos/downloaders/chat.py:60-72 | the ids exist only when the members can be iterated and filtered and the current user's id is known; they are the positive members less the current user |
| Chat.MemberIdsOthers | vk_photos/downloaders/chat.py:66-72 | the ids handed on are all positive: the positive members in order less one occurrence of the current user, and the removal fails exactly when the current user is not among them |
| Chat.AttachmentRecord | vk_photos/downloaders/chat.py:106-113 | an item gives a record exactly when its photo has an id, an owner id and a last size with a URL; the record holds those |
| Chat.AttachmentsEach | vk_photos/downloaders/chat.py:100-115 | `get_attachments` yields one record per item, in order, and raises exactly when an item lacks a key |
| Chat.AttachmentJob | vk_photos/downloaders/chat.py:141 | the download job for an attachment record fetches its URL into "{owner_id}_{id}.jpg" |
| Chat.JobOfRecord | vk_photos/downloaders/chat.py:141 | the download job for a record reads the record's "id", "owner_id" and "url" |
| Chat.AttachmentJobs | vk_photos/downloaders/chat.py:128-141 | `download_photos` never raises on the records `get_attachments` builds: each gets exactly one job |
| Chat.GetAttachments | vk_photos/downloaders/chat.py:93-115 | the loop appends exactly the records of the peer's history |
| Chat.ChatFolder | vk_photos/downloaders/chat.py:46-55 | the folder exists only with utils set and an integer chat id, and is the chat title read for that id |
| Chat.ChatFolderPeer | vk_photos/downloaders/chat.py:54 | the title comes from the conversation of peer 2000000000 + chat id, however the id was spelt |
| Chat.ChatMembersMain | vk_photos/downloaders/chat.py:49-76 | an empty member list downloads nothing; otherwise the user downloader gets the positive members less the current user, in the chat's folder |
| Chat.ChatPhotoMain | vk_photos/downloaders/chat.py:117-141 | a run downloads exactly when the folder and the attachments of peer 2000000000 + chat id can be read, and then those attachments into the chat's folder |
| Chat.ChatUserMain | vk_photos/downloaders/chat.py:203-225 | a run downloads exactly when utils are set, the user name and the attachments of the peer given as it is can be read, into "Переписка {name}" |
| Chat.AttachmentPeers | vk_photos/downloaders/chat.py:101-187 | the chat downloader depends only on the history of peer 2000000000 + id, the conversation downloader only on the id as given |
| Duplicates.Read | vk_archiver/filter.py:28 | `read(size)` returns the next bytes of the file from the position, at most `size` of them, nothing exactly at the end or for size 0, and the rest of the file for a negative size |
| Duplicates.ChunkReader | vk_archiver/filter.py:14-31 | the chunks are non-empty, at most the chunk size, and make up the whole content; size 0 yields nothing and a negative size at most one chunk |
| Duplicates.Prefix | vk_archiver/filter.py:53 | the first 1024 bytes of the content, or all of a shorter one |
| Duplicates.GetHash | vk_archiver/filter.py:34-59 | the digest of the first 1024 bytes, or of the whole content fed chunk by chunk |
| Duplicates.GroupedAppend | vk_archiver/filter.py:87 | appending an item to its key's list of a `defaultdict(list)` keeps the grouping |
| Duplicates.BigMember | vk_archiver/filter.py:90-98 | an item is in the groups of two or more exactly when it shares its key with another item |
| Duplicates.BigPrefix | vk_archiver/filter.py:90-98 | no item appears twice in the concatenated groups |
| Duplicates.TwoInWhere | vk_archiver/filter.py:90-91 | in a listing without repeats, an item's group holds two or more exactly when another item shares its key |
| Duplicates.RepeatsCount | vk_archiver/filter.py:107-113 | the duplicates plus the distinct full hashes make up all the files hashed |
| Duplicates.RepeatsMember | vk_archiver/filter.py:107-113 | a file is a duplicate exactly when an earlier file has its full hash: the first file with each hash never is |
| Duplicates.RepeatsOf | vk_archiver/filter.py:107-113 | only hashed files are duplicates |
| Duplicates.JpgFiles | vk_archiver/filter.py:81 | `glob("*.jpg")` keeps exactly the entries whose name ends in ".jpg" |
| Duplicates.JpgFilesDistinct | vk_archiver/filter.py:81 | a listing without repeats gives ".jpg" files without repeats |
| Duplicates.AppendGrouped | vk_archiver/filter.py:87 | `groups[k].append(x)` keeps the grouping |
| Duplicates.GroupBySize | vk_archiver/filter.py:83-87 | every file is listed under its size, in order |
| Duplicates.HashPrefixGroup | vk_archiver/filter.py:94-98 | every file of one shared size is listed under its prefix hash and that size |
| Duplicates.HashPrefixes | vk_archiver/filter.py:90-98 | the files of every size shared by two or more, in order, grouped by prefix hash and size |
| Duplicates.RecordFirst | vk_archiver/filter.py:109-113 | a file whose hash was seen is a duplicate; otherwise its hash is recorded |
| Duplicates.HashFullGroup | vk_archiver/filter.py:107-113 | after one group the recorded hashes are those of the files hashed and the duplicates are the repeats among them |
| Duplicates.HashFull | vk_archiver/filter.py:103-113 | the files of every prefix group of two or more are hashed whole, and the duplicates are exactly those whose full hash repeats an earlier one |
| Duplicates.KeySetAppend | vk_archiver/filter.py:109-113 | one more file adds its hash to those recorded, and is a duplicate exactly when its hash was there |
| Duplicates.CheckForDuplicates | vk_archiver/filter.py:62-118 | the prefix-hashed files are the ".jpg" files sharing their size with another, the fully hashed ones those sharing size and prefix hash; the count is the number of files whose full hash repeats an earlier one; no file is deleted |
| Duplicates.SharedSizes | vk_archiver/filter.py:90-98 | the prefix-hashed files are the ".jpg" files that share their size with another, none twice |
| Duplicates.SharedPrefixes | vk_archiver/filter.py:103-107 | the fully hashed files are the ".jpg" files that share size and prefix hash with another, none twice |

## Left out

- Concurrency: `asyncio` locks, `Semaphore`, `as_completed`, `to_thread` and `wait_for` are not modelled. Downloads run one after another in list order, and a timeout is one more failed attempt.
- Floating-point time is not modelled. Windows, margins, waits and backoffs are integer milliseconds.
- `random.uniform` jitter is an input of the environment, bounded by `[0, jitter]`, rather than a random draw.
- The HTTP client (aiohttp), vk_api, yt-dlp, pytrovich, pytils, tqdm, PyYAML, `json` and `hashlib` are foreign code. They appear as parameters:
  - the HTTP answer to a request;
  - the API's page function;
  - the declension function `decline` calls;
  - the YAML and JSON codecs;
  - the content hash.
- Videos fetched through their player page are not downloaded. The model records the job handed to yt-dlp; what yt-dlp did with each job is a parameter of the run (`outcome`: it left a file at the target, returned without one, or raised), and so is whether a direct download got a 200 reply (`served`). A raising download ends the run, as the `DownloadError` of `download_video` (vk_photos/functions.py:122-124) does.
- The texts of TypeError and KeyError messages are not modelled. A Python operation that raises on a value of the wrong type gives `None`, and only the fact that it raised is kept.
- JSON numbers with a fractional part are not modelled. `int()` is modelled for ints, bools and decimal strings, so a post date sent as a float is outside the model.
- `Chat.PyEq`: Python `==` is modelled as numeric between ints and bools and structural otherwise. It does not model the numeric comparison of ints with bools nested inside lists or dicts.
- Chat downloaders' outcomes stop at what `main` hands on. The member ids passed to `UsersPhotoDownloader` and the folder passed to `download_photos` and `check_for_duplicates` are values of the outcome, not runs of those downloaders.
- `Duplicates.JpgFiles`: the folder listing holds files only. A directory whose name ends in ".jpg", which `glob` would also return, is not modelled.
- `Duplicates.GetHash`: SHA-1 is an abstract function, so the model says nothing about collisions.
- Logging, progress bars, wall-clock timing and the Russian plural messages are not modelled. The progress-bar count of the wall downloader is left out with them.
- The `last_updated` time stamp written into the lock file is a parameter.
- `Consistency.ConsistencyManager.Save`: the lock-file write is modelled as succeeding. The OSError the source logs and raises again when the write fails is not modelled.
- The `mkdir(parents=True, exist_ok=True)` calls the downloaders make before a run are assumed to succeed. So is the plain `photos_path.mkdir()` of `ChatPhotoDownloader.main` (vk_photos/downloaders/chat.py:124-126), which has no `parents` and would raise when the downloads folder itself is missing. Only `FileOperations.create_dir` and `atomic_write_bytes` model a failing mkdir.
- `ExampleIntegration.ExamplePhotoDownloader.DownloadPhotos`: the file for a photo is named from its identifier as one path component. An identifier that contains "/" names a file in a sub-folder, which the model does not capture.
- `GroupAlbumsDownloader` (vk_photos/downloaders/group.py:35-104) is not modelled: it pages a group's albums, writes their "info.yaml" and downloads them.
- The `main` drivers of `GroupPhotoDownloader` and `GroupsPhotoDownloader` (vk_photos/downloaders/group.py:218-323 and 440-548) are not modelled beyond their id parsing and folder naming. They resolve folders, write "info.yaml", call the modelled `get_photos` and download.
- These modules are not part of this model:
  - vk_photos/downloaders/metadata.py;
  - vk_photos/utils/config.py, except the key check `Utils._validate_config`;
  - vk_photos/utils/auth.py;
  - vk_photos/utils/logging_config.py;
  - vk_photos/utils/file_ops.py.
- The attribute delegation `__getattr__` of both rate limiters is not modelled, because Python reflection has no counterpart here. It is at vk_archiver/utils/rate_limiter.py:192-228 and vk_photos/utils/rate_limiter.py:119-155.
- The click commands and the module-level configuration and event-loop setup of vk_photos/main.py are left out. The model covers only the checks every command passes an id through before it downloads.
- `CLIParameterValidator.validate_output_dir` is left out: it only resolves a path and creates the directory.
- `Wall.RunCap` says nothing for a `max_items` of 0 or less. In that case the source keeps the first passing post before its check stops the page.
- `User.SortByDate`: dates are taken to be integers. Python would also sort other comparable dates (floats, or strings among themselves); any record whose date is not an integer is treated as raising, and so is a single record with a non-integer date, which Python would accept. `User.DateOf` and `User.Downloaded` inherit this.
- The downloaders' runs are not composed with `FileOperations.write_yaml`, although `Files.WriteYaml` models it on its own. So no run writes a file for its YAML dumps, and a failing write does not abort a run. Each run below says which dump it leaves out.
- `Stories.Run`: the write of `stories.yaml` (vk_photos/downloaders/stories.py:150) is left out. The raw reply it would hold is not kept either.
- `Stories.Run`: a direct download that raises (an aiohttp error, or an OSError from `atomic_write_bytes`) is not modelled. In the source it propagates through `await t` (vk_photos/downloaders/stories.py:171-172, 191) and ends `run` before the summary. The model always finishes with the list of downloads started.
- `Wall.Run`: the writes of `posts.yaml` and `links.yaml` (vk_photos/downloaders/wall.py:220-223) are left out. The model keeps the posts and the photo links those files would hold.
- `Wall.Run`: `int(resp.get("count", 0))` on the first page (vk_photos/downloaders/wall.py:158-159) is not modelled. It only sizes the progress bar, but a "count" that `int()` rejects would raise there, and the model never reads "count".
- `Documents.Run`: the write of `docs.yaml` (vk_photos/downloaders/documents.py:151-152) is left out.
- `Documents.Run`: a direct download that raises is not modelled. In the source it propagates through `await t` (vk_photos/downloaders/documents.py:136, 177-178) and ends `run` before the summary. The model always finishes with the list of downloads started and the summary. `Downloads.DownloadDirect` models one download, including its failed save, but is not composed into the runs.
- `Videos.Run`: the write of `videos.yaml` (vk_photos/downloaders/videos.py:119) is left out.
- `Videos.Run`: a direct download that raises is not modelled. In the source it propagates through `await t` (vk_photos/downloaders/videos.py:107, 145-146) and ends `run` before the yt-dlp loop. The model always goes on to the yt-dlp loop.
- `Photos.Run`: the write of each album's `info.yaml` (vk_photos/downloaders/photos.py:151) is left out.
- The group folder name of `GroupPhotoDownloader.main` (vk_photos/downloaders/group.py:227-233) is the same replacement of '/', '|' and '.' followed by `strip()` as `get_group_title` (vk_photos/utils/vk_utils.py:283-290); `VkUtils.GroupTitle` models both.
- `Text.ParseInt` models Python's `int()` on a string for ASCII digits only. Python also accepts single underscores between digits (`int("1_000")` is 1000) and the decimal digits of other scripts (`int("١٢")` is 12); the model rejects both. The members below inherit this.
- `Text.Lower` and `Text.IsAlnum` model `str.lower` and `str.isalnum` on ASCII letters and digits only. Other letters are neither lower-cased nor counted as alphanumeric, while Python does both (`"JPÉG".lower()` is `"jpég"`). The members below inherit this.
- `Validation.Validate`: an id with underscores or non-ASCII digits, which `int()` accepts, is reported as a ValidationError (`Text.ParseInt`).
- `Cli.ValidateId`: an id with underscores or non-ASCII digits, which `int()` accepts, is rejected with BadParameter (`Text.ParseInt`).
- `Paging.ResumeOffset`: a stored offset string with underscores or non-ASCII digits, which `int()` accepts, is treated as raising (`Text.ParseInt`).
- `Documents.DocTarget`: a document id string with underscores or non-ASCII digits gets no target, although `int()` accepts it (`Text.ParseInt`).
- `Group.ParseGroupIds`: a piece with underscores or non-ASCII digits makes the parse fail, although `int()` accepts it (`Text.ParseInt`).
- `Group.GroupDownloader.ForGroup`: a group id with underscores or non-ASCII digits is refused, although `int()` accepts it (`Text.ParseInt`).
- `Group.GroupDownloader.ForGroups`: inherits the ASCII-only pieces of `Group.ParseGroupIds`.
- `Chat.ChatFolder`: a chat id with underscores or non-ASCII digits gets no folder, although `int()` accepts it (`Text.ParseInt`).
- `Naming.ExtFromUrl`: an extension with non-ASCII letters or digits gives the default, where Python lower-cases and keeps it (`Text.Lower`, `Text.IsAlnum`). `Photos.ExtFromUrl` and `Stories.ExtFromUrl` inherit this.
- `Photos.ExtFromUrl`: see `Naming.ExtFromUrl`; an extension with non-ASCII letters or digits gives "jpg".
- `Stories.ExtFromUrl`: see `Naming.ExtFromUrl`; an extension with non-ASCII letters or digits gives the default.
- `Documents.ExtFromDoc`: only ASCII capitals of "ext" are lower-cased (`Text.Lower`).
- `ArchiverRateLimiter.IsRateLimitMessage`: the error text is lower-cased on ASCII letters only (`Text.Lower`). The phrases it looks for are ASCII, but a text with non-ASCII capitals is lower-cased differently from Python.
- `StateStore.TypeStateStore.Get`: `dict(value)` (vk_archiver/utils/state.py:46-47) also accepts a section stored as a list of key-value pairs, such as `[["offset", 5]]`, and gives `{"offset": 5}`. The model only reads a section stored as an object and reports every other truthy value as raising. Sections are always written as objects by `update`, so only a hand-edited state file holds a list there.
- `StateStore.SectionOf`: the same as `StateStore.TypeStateStore.Get`; a list of pairs is reported as raising.
- `Resumable.FetchResumedRaises`: inherits `StateStore.SectionOf`; a section stored as a list of pairs is reported as raising.
- `Consistency.PySet`: `Int(1)` and `Bool(true)` (and `Int(0)` and `Bool(false)`) stay two elements, whereas a Python set holds only one of them, because `1 == True` and their hashes agree.
- `JsonValues.Repr`: a string is always put between single quotes as it is. Python's `repr` switches to double quotes for a string holding `'` and no `"`, and escapes backslashes, the quote in use and control characters; the model does neither.
- `Wall.YearToken`, `Wall.MonthToken` and `Wall.DayToken` accept ASCII digits only; `strptime`'s `\d` also matches other Unicode decimal digits, which the model rejects.

## Findings

| source | as written | input that shows it | evidently intended | confidence | as-written member | corrected member |
|---|---|---|---|---|---|---|
| vk_photos/downloaders/user.py:233-250 | for a closed profile `main` builds a one-photo list whose record has no "date", then sorts with `key=lambda k: k["date"]`, which raises KeyError | any profile with `is_closed` true and `can_access_closed` false | the avatar of a closed profile is downloaded as the only photo | not executed | User.ClosedProfileRaises | User.AfterPrelude |
| vk_photos/downloaders/user.py:313-314 | `users` runs each user's `main` in turn, and the KeyError of a closed profile (the row above) ends the loop | `users --user-ids 1,2` where user 1's profile is closed | one closed profile does not stop the other users' downloads | not executed | User.ClosedUserAbortsUsers | User.UsersMain |
| vk_photos/main.py:406-416 | `user`, `group` and the chat commands call `utils.check_*_id` before `utils.auth_by_token()`; `Utils._vk` is still None, so the `vk` property raises, the check's `except` returns False, and the command fails with "does not exist" | `user --user-id 1` in a fresh process, with a valid token | authenticate first, then check the id | not executed | Cli.FreshCommandRejects | Cli.AuthFirstCommand |
| vk_photos/main.py:431-441 | `users` and `groups` check every id before `auth_by_token`, with the same effect on the first id | `users --user-ids 1,2` in a fresh process | authenticate first, then check each id | not executed | Cli.FreshListRejects | Cli.AuthFirstListCommand |
