# tuliprox core, modelled in Dafny

tuliprox is an IPTV proxy. It reads provider playlists and EPG (XMLTV) guides, rewrites them with
user-written mapping scripts, and serves them to its own users while it limits how many streams
each user may hold at once. This project models five parts of it and proves properties of the
models:

- **Mapper scripts** (`src/foundation/mapper.rs`). This covers the script AST, the validator that
  rejects unknown identifiers and malformed `match`/`map` blocks, and the evaluator for
  expressions, built-in functions, `match` and `map` blocks. It also covers the statement runner,
  which writes variables into a `MapperContext` and fields into a playlist-item accessor. Modules:
  `MapperSyntax`, `MapperValidate`, `MapperEval` and `MapperExec`.
- **Active user manager** (`src/api/model/active_user_manager.rs`). This covers the per-user
  connection counters, the connection-permission decision with its grace period, the user
  sessions, and the periodic garbage collection of stale sessions. Module: `ActiveUsers`, with
  the class `ActiveUserManager`.
- **XMLTV processing** (`backend/src/processing/parser/xmltv.rs`). This covers splitting a
  country-code prefix off a channel name, merging and priority-sorting EPG sources, the
  tag-stack builder behind `parse_tvguide`, and `flatten_tvguide`. The last merges several
  guides so that each channel id comes from the guide with the best (lowest) priority that
  offers it. Module: `Xmltv`, with the class `TagStack`.
- **Configuration checks** (`backend/src/model/config/base.rs`). This covers input and target
  lookups, the user-to-target checks, unique input and alias names, scheduler target names, the
  sleep timer, and the `prepare` steps that fill in defaults. Module: `Config`, with the classes
  `Config` and `ConfigApi`.
- **Stream API helpers** (`backend/src/api/api_utils.rs`). This covers the stream options derived
  from the reverse-proxy config, the grace-period choice, the throttling and stream-sharing
  predicates, the provider query path, the seek-request test, the alternative stream URL, and
  the split of a stream id from its extension. Module: `ApiUtils`.

`Text` models the few Rust string operations these files rely on: `trim`, `find`, `rfind`,
`replace`, `cmp`, `eq_ignore_ascii_case` and integer formatting. `Seqs` holds the first-match
search that the configuration lookups and the channel-name split share. `Wrappers` holds `Option`
and `Result`.

Stateful code is modelled as classes whose methods are proved against specification functions.
Examples:

- `ActiveUserManager` is proved against `Decide`, `GcUsers` and `SumConnections`.
- `TagStack` is proved against the step function `Step`, and `ParseTvGuide` against its fold `RunFrom`.
- `Config` is proved against `CheckUniqueNames`.
- `MapperContext` and `ValueAccessor` are proved against `ExecScript`.
- `FlattenTvGuide` is proved against `Flatten`.

Loops in the source are methods with loop invariants. The properties of the specification
functions are lemmas.

## Model

| member | source | states |
|---|---|---|
| Text.TrimStart | backend/src/model/config/base.rs:305 | the result is a suffix of the input; it starts with a non-whitespace character, and every character cut off is whitespace |
| Text.TrimEnd | backend/src/model/config/base.rs:305 | the result is a prefix of the input; it ends with a non-whitespace character, and every character cut off is whitespace |
| Text.Trim | backend/src/model/config/base.rs:305 | the result is no longer than the input and has no whitespace at either end |
| Text.TrimSpec | backend/src/model/config/base.rs:305 | `trim` yields a trimmed string: the input with whitespace cut off at both ends, and nothing else |
| Text.TrimInfix | backend/src/processing/parser/xmltv.rs:40-44 | the trimmed string is the contiguous middle part of the input |
| Text.TrimCutsWhitespace | backend/src/processing/parser/xmltv.rs:40-44 | everything `trim` removes is whitespace |
| Text.TrimIdempotent | backend/src/processing/parser/xmltv.rs:40-44 | trimming twice is the same as trimming once |
| Text.TrimOfTrimmed | backend/src/processing/parser/xmltv.rs:360 | `trim` leaves an already trimmed string unchanged |
| Text.TrimStartNonAlphanumeric | backend/src/processing/parser/xmltv.rs:35 | the result is a suffix of the input that is empty or starts with an alphanumeric character, and every character cut off is non-alphanumeric |
| Text.LowerAscii | backend/src/processing/parser/xmltv.rs:407 | lower-casing keeps the length and maps each character on its own |
| Text.Find | backend/src/processing/parser/xmltv.rs:38 | the result is the first index of the character, or None exactly when the character is absent |
| Text.RFind | backend/src/api/api_utils.rs:758 | the result is the last index of the character, or None exactly when the character is absent |
| Text.Replace | backend/src/api/api_utils.rs:206-208 | replacing a pattern by itself leaves the string unchanged, even for the empty pattern; replacing a non-empty pattern that does not occur leaves it unchanged |
| Text.InterleaveEmpty | backend/src/api/api_utils.rs:206-208 | replacing the empty pattern with the empty string leaves the string unchanged |
| Text.ReplaceNonEmptySelf | backend/src/api/api_utils.rs:206-208 | replacing a non-empty pattern by itself leaves the string unchanged |
| Text.ReplaceNonEmptyAbsent | backend/src/api/api_utils.rs:206-208 | replacing a non-empty pattern that does not occur leaves the string unchanged |
| Text.ReplaceAtFront | backend/src/api/api_utils.rs:206-208 | an occurrence at the very start is replaced and scanning continues right after it |
| Text.ReplaceSkip | backend/src/api/api_utils.rs:206-208 | a prefix in which no occurrence starts is copied unchanged |
| Text.ReplaceFirstOccurrence | backend/src/api/api_utils.rs:206-208 | the first occurrence is replaced, the text before it is kept, and replacement goes on after it |
| Text.ReplaceOnce | backend/src/api/api_utils.rs:206-208 | when the pattern's first character appears nowhere else, `a + from + c` becomes `a + to + c` |
| Text.LexCompare | src/foundation/mapper.rs:706 | string comparison gives Equal exactly for equal strings |
| Text.LexCompareReverse | src/foundation/mapper.rs:706 | swapping the operands reverses the ordering |
| Text.JoinEmptyAppend | src/foundation/mapper.rs:843 | joining with "" distributes over appending one piece |
| Text.JoinEmptyConcat | src/foundation/mapper.rs:843 | joining with "" distributes over concatenation |
| Text.NatToString | backend/src/api/api_utils.rs:439-443 | the decimal text is non-empty, all digits, has no leading zero and reads back as the number |
| Seqs.First | backend/src/model/config/base.rs:269-278 | the index found, if any, lies within the sequence |
| Seqs.FirstSpec | backend/src/model/config/base.rs:269-278 | the index found is the first whose element passes the test; None means no element passes |
| Seqs.FirstTail | backend/src/processing/parser/xmltv.rs:37-48 | skipping a first element that fails the test shifts the index found by one |
| Config.IndexOfName | backend/src/model/config/base.rs:247-256 | the result is the first input with that name, or None when no input has it |
| Config.GetInputByName | backend/src/model/config/base.rs:247-256 | the result is None exactly when no input of any source has the name; otherwise it is the first such input |
| Config.GetInputById | backend/src/model/config/base.rs:269-278 | the result is None exactly when no input has the id; otherwise it is the first such input |
| Config.InputOptionsOfFirst | backend/src/model/config/base.rs:258-267 | an input's options come from the first input with that name, and are None when it has none or no input matches |
| Config.OptionsInFirst | backend/src/model/config/base.rs:258-267 | within one source, the options lookup agrees with the first input of that name |
| Config.IndexOfNameConcat | backend/src/model/config/base.rs:247-256 | a lookup over concatenated input lists takes the earlier list's hit first |
| Config.InternGetTargetForUser | backend/src/model/config/base.rs:202-216 | no user gives None; a found target belongs to the user and is a configured target whose name matches ignoring ASCII case; None means no target matches |
| Config.GetTargetForUsername | backend/src/model/config/base.rs:227-233 | None exactly when the user is unknown or no target matches the user's target name ignoring ASCII case; a found target is a configured one, matches that name and comes with the user's credentials |
| Config.CheckUsername | backend/src/model/config/base.rs:142-155 | no output username is always Ok; otherwise the check passes exactly when the user exists and their target has the given name, and an unknown user gives the source's error text |
| Config.UsernameOfOwnTarget | backend/src/model/config/base.rs:142-155 | a user checked against their own target (unique ignoring case) passes |
| Config.CheckScheduledTargets | backend/src/model/config/base.rs:331-344 | the check passes exactly when every scheduled target name is a known target; an error names the first unknown one, every earlier name being known |
| Config.CheckSleepTimer | backend/src/model/config/base.rs:356-360 | the sleep timer is rejected exactly when it is set to 0 minutes |
| Config.CheckFromConcat | backend/src/model/config/base.rs:301-328 | the name check of two name lists is the check of the first followed by the check of the second |
| Config.CheckFromSpec | backend/src/model/config/base.rs:301-328 | the name check passes exactly when every name is non-empty, unseen and pairwise distinct, and then returns all names seen |
| Config.FreshCons | backend/src/model/config/base.rs:301-328 | a name list is fresh and distinct exactly when its head is new and its tail is fresh with the head added |
| Config.CheckUniqueNamesSpec | backend/src/model/config/base.rs:301-328 | the configuration passes exactly when all input and alias names are non-empty and pairwise distinct |
| Config.ConfigApi.constructor | backend/src/model/config/base.rs:50-55 | a new API config holds the given host, port and web root |
| Config.ConfigApi.Prepare | backend/src/model/config/base.rs:58-62 | an empty web root becomes the default; a set one is kept; nothing else changes |
| Config.Config.constructor | backend/src/model/config/base.rs:67-80 | a new configuration holds the given fields |
| Config.Config.CheckUniqueInputNames | backend/src/model/config/base.rs:301-328 | the loop over sources returns exactly the specified name check |
| Config.Config.PrepareDirectories | backend/src/model/config/base.rs:390-400 | missing backup and user-config directories default to subdirectories of the working directory; other fields are unchanged |
| Config.Config.PrepareVideoConfig | backend/src/model/config/base.rs:420-437 | a missing video config becomes the default; a present one is replaced by its prepared form or the error is passed on |
| Config.CheckSourceNames | backend/src/model/config/base.rs:303-325 | the loop over one source's inputs returns the name check of all their names |
| Config.CheckInputNames | backend/src/model/config/base.rs:304-324 | the check of one input and its aliases returns the name check of its names |
| Config.CheckName | backend/src/model/config/base.rs:305-312 | a name passes exactly when it is non-empty and unseen, and is then added to the seen set |
| Config.SetDirectory | backend/src/model/config/base.rs:391-396 | a set path is kept; a missing one becomes the default subdirectory |
| ActiveUsers.NewConnectionData | src/api/model/active_user_manager.rs:47-55 | new connection data has the given counts, no grace and no sessions |
| ActiveUsers.Decide | src/api/model/active_user_manager.rs:99-133 | below the limit is Allowed and clears grace; at the limit with a grace period configured grants grace once; over the limit keeps a recent grace; otherwise Exhausted |
| ActiveUsers.GraceOncePerTimeout | src/api/model/active_user_manager.rs:111-128 | after a grant, a user over the limit within the timeout keeps the grace and gets no second grant |
| ActiveUsers.KeepRecent | src/api/model/active_user_manager.rs:282 | the kept sessions are exactly those younger than the session TTL, and there are no more of them than before |
| ActiveUsers.KeepRecentSingle | src/api/model/active_user_manager.rs:282 | one session is kept exactly when it is younger than the TTL |
| ActiveUsers.KeepRecentConcat | src/api/model/active_user_manager.rs:282 | pruning a concatenation prunes each part on its own, keeping their order |
| ActiveUsers.FindUserSession | src/api/model/active_user_manager.rs:198-200 | the found session has the token; None means no session has it |
| ActiveUsers.FirstSessionIndex | src/api/model/active_user_manager.rs:244-250 | the index points at a session with the token; None means none has it |
| ActiveUsers.SessionIndex | src/api/model/active_user_manager.rs:244-250 | the search loop returns the first index of a session with the token |
| ActiveUsers.SumConnectionsRemove | src/api/model/active_user_manager.rs:158-160 | the total of connections splits into one user's count plus the rest |
| ActiveUsers.SumConnectionsUpdate | src/api/model/active_user_manager.rs:158-160 | replacing one user's data changes the total by the difference of counts |
| ActiveUsers.Pruned | src/api/model/active_user_manager.rs:281-283 | pruning changes only a user's sessions and keeps the grace state |
| ActiveUsers.GcUsers | src/api/model/active_user_manager.rs:280-284 | garbage collection keeps every user and prunes each user's sessions |
| ActiveUsers.ActiveUserManager.constructor | src/api/model/active_user_manager.rs:67-80 | a new manager has no users and the given grace settings |
| ActiveUsers.ActiveUserManager.CheckConnectionPermission | src/api/model/active_user_manager.rs:99-133 | the returned permission and the user's new grace state are the ones `Decide` gives |
| ActiveUsers.ActiveUserManager.ConnectionPermission | src/api/model/active_user_manager.rs:135-146 | unlimited or unknown users are Allowed and nothing changes; others get the `Decide` result |
| ActiveUsers.ActiveUserManager.AddConnection | src/api/model/active_user_manager.rs:162-170 | a known user's count rises by one and takes the new limit; an unknown user starts at one connection |
| ActiveUsers.ActiveUserManager.RemoveConnection | src/api/model/active_user_manager.rs:180-192 | a known user's count drops by one, never below zero; grace is cleared once the count is zero or below the limit |
| ActiveUsers.ActiveUserManager.Gc | src/api/model/active_user_manager.rs:275-287 | when the GC interval has passed, stale sessions are dropped and the GC time is now; otherwise nothing changes |
| ActiveUsers.ActiveUserManager.CreateUserSession | src/api/model/active_user_manager.rs:214-230 | after the due GC, the session with the given token is appended for the user, who is created if unknown |
| ActiveUsers.ActiveUserManager.UpdateUserSession | src/api/model/active_user_manager.rs:236-262 | an unknown user or token gives None; for a limited user, a session running on grace has its permission decided again by `Decide` |
| ActiveUsers.ActiveUserManager.SetSessionPermission | src/api/model/active_user_manager.rs:253-258 | only the indexed session's permission changes; every other session and user is kept |
| ActiveUsers.ActiveUserManager.ActiveConnections | src/api/model/active_user_manager.rs:153-160 | the loop returns the total of all users' connection counts |
| ActiveUsers.AddConnectionTotal | src/api/model/active_user_manager.rs:162-170 | adding a connection raises the total by exactly one |
| ActiveUsers.RemoveConnectionTotal | src/api/model/active_user_manager.rs:180-185 | removing a connection lowers the total by exactly one |
| ApiUtils.SeparateNumberAndRemainder | backend/src/api/api_utils.rs:757-763 | without a dot the whole input is the number and there is no remainder; otherwise the number is the prefix before the last dot, the remainder is None exactly when that dot ends the input (the number followed by `.` is then the input), and otherwise the remainder is the dot and what follows it, at least two characters, so that number and remainder rejoin to the input |
| ApiUtils.SeparateOfJoined | backend/src/api/api_utils.rs:757-763 | splitting `number.ext` with a dot-free extension gives back the number and `.ext` |
| ApiUtils.GetGracePeriodMillis | backend/src/api/api_utils.rs:330-335 | the result is the configured grace or 0, and it is non-zero exactly when grace is configured and either side is in a grace period |
| ApiUtils.GetStreamOptions | backend/src/api/api_utils.rs:176-191 | without stream config the defaults hold; the provider stream is piped exactly when neither retry nor buffering is on |
| ApiUtils.ThrottledKinds | backend/src/api/api_utils.rs:515-517 | a zero limit never throttles, and live, HLS-live and DASH-live items are never throttled |
| ApiUtils.ShareOnlyPlainLive | backend/src/api/api_utils.rs:675-677 | only plain live items are shared (HLS and DASH live are not), so no stream is both shared and throttled |
| ApiUtils.GetQueryPath | backend/src/api/api_utils.rs:433-444 | the path is the optional action path, the provider id and the chosen extension (stream extension first) |
| ApiUtils.QueryPathProviderId | backend/src/api/api_utils.rs:433-444 | the provider id can be read back from the digits of the query path |
| ApiUtils.IsSeekRequest | backend/src/api/api_utils.rs:801-825 | a request seeks exactly when it is not live and its range header starts with `bytes=` but not with `bytes=0-` (a plain prefix test, so `bytes=00-` and `bytes=-500` also count as seeks) |
| ApiUtils.SeekExamples | backend/src/api/api_utils.rs:801-825 | `bytes=0-` does not seek, `bytes=1024-` on video does, and live never does |
| ApiUtils.GetStreamAlternativeUrl | backend/src/api/api_utils.rs:202-209 | without both user infos, the URL is returned unchanged |
| ApiUtils.AlternativeUrlOfSameProvider | backend/src/api/api_utils.rs:202-209 | rewriting a URL to the same provider leaves it unchanged |
| ApiUtils.AlternativeUrlWithoutCredentials | backend/src/api/api_utils.rs:202-209 | a URL containing none of the base URL, username or password is not changed |
| ApiUtils.AlternativeUrlRewrites | backend/src/api/api_utils.rs:202-209 | a URL made of the input's base URL, username and password with other text in between gets the alias's base URL, username and password in their places, the rest kept |
| ApiUtils.ReplaceBaseUrl | backend/src/api/api_utils.rs:206 | the base URL at the front is swapped for the alias's |
| ApiUtils.ReplaceUsername | backend/src/api/api_utils.rs:207 | the username is swapped for the alias's, the rest kept |
| ApiUtils.ReplacePassword | backend/src/api/api_utils.rs:208 | the password is swapped for the alias's, the rest kept |
| Xmltv.SplitFrom | backend/src/processing/parser/xmltv.rs:37-49 | a split prefix is a known country code, both parts are trimmed and the rest is non-empty; otherwise the input is returned unchanged |
| Xmltv.Candidate | backend/src/processing/parser/xmltv.rs:38-42 | a delimiter gives a candidate exactly when it occurs; the candidate is the trimmed text before and after its first occurrence |
| Xmltv.SplitFromHead | backend/src/processing/parser/xmltv.rs:37-47 | a qualifying first delimiter splits at that delimiter; otherwise the search goes on with the remaining delimiters |
| Xmltv.SplitFromFirst | backend/src/processing/parser/xmltv.rs:37-49 | with no qualifying delimiter the input is returned; otherwise the split is at the first qualifying delimiter in the list |
| Xmltv.SplitByFirstMatch | backend/src/processing/parser/xmltv.rs:34-50 | after cutting leading non-alphanumerics, a split prefix is a known country code, both parts are trimmed and the rest is non-empty; otherwise the input is returned unchanged |
| Xmltv.SplitByFirstMatchWitness | backend/src/processing/parser/xmltv.rs:34-50 | a split happens exactly when some delimiter qualifies (it occurs, the rest after it is non-empty and the text before it is a known code), and then at the first such delimiter in the list |
| Xmltv.SplitFromAbsent | backend/src/processing/parser/xmltv.rs:34-50 | with none of the delimiters present, there is no split |
| Xmltv.NamePrefix | backend/src/processing/parser/xmltv.rs:53-61 | Ignore mode keeps the name; otherwise a prefix is found exactly when `split_by_first_match` finds one, and then the result is its parts swapped |
| Xmltv.Combine | backend/src/processing/parser/xmltv.rs:63-69 | the result is `left.right` |
| Xmltv.AllChildrenMembers | backend/src/processing/parser/xmltv.rs:95-108 | the merged children are exactly the children of all sources, counted with multiplicity |
| Xmltv.Merge | backend/src/processing/parser/xmltv.rs:95-108 | no sources give None; otherwise the first source's attributes with all children appended |
| Xmltv.InsertByPriority | backend/src/processing/parser/xmltv.rs:296 | insertion adds exactly one element |
| Xmltv.InsertByPriorityPermutes | backend/src/processing/parser/xmltv.rs:296 | insertion adds exactly the new source to the multiset |
| Xmltv.InsertByPrioritySorted | backend/src/processing/parser/xmltv.rs:296 | inserting into a sorted list keeps it sorted by priority |
| Xmltv.SortByPriority | backend/src/processing/parser/xmltv.rs:429 | the result is sorted by priority and is a permutation of the input |
| Xmltv.SortByPriorityMembers | backend/src/processing/parser/xmltv.rs:427-429 | sorting keeps exactly the same guides |
| Xmltv.GetTagTypes | backend/src/processing/parser/xmltv.rs:391-399 | each flag is set exactly when the tag name is `tv`, `channel` or `programme` |
| Xmltv.CollectTagAttributes | backend/src/processing/parser/xmltv.rs:401-416 | only non-empty values are kept, each comes from an attribute, and a channel `id` and a programme `channel` are lower-case |
| Xmltv.NewTag | backend/src/processing/parser/xmltv.rs:306-310 | a new tag has the name, no text and no children |
| Xmltv.AddChild | backend/src/processing/parser/xmltv.rs:339-347 | the parent keeps its name, text and attributes and gets the tag as its last child |
| Xmltv.StepValid | backend/src/processing/parser/xmltv.rs:368-389 | every parse event keeps the builder state valid: emitted tags are `tv`, channels with an id or programmes with a channel, and no `tv` tag is on the stack |
| Xmltv.StartValid | backend/src/processing/parser/xmltv.rs:302-317 | a tag start keeps the builder state valid |
| Xmltv.EndValid | backend/src/processing/parser/xmltv.rs:320-354 | a tag end keeps the builder state valid |
| Xmltv.TextValid | backend/src/processing/parser/xmltv.rs:357-366 | a text event keeps the builder state valid |
| Xmltv.RunFromValid | backend/src/processing/parser/xmltv.rs:368-389 | over any events a valid builder stays valid, and the tags already emitted are never taken back |
| Xmltv.TagStack.constructor | backend/src/processing/parser/xmltv.rs:373 | a new builder is in the empty state and is valid |
| Xmltv.TagStack.HandleTagStart | backend/src/processing/parser/xmltv.rs:302-317 | the new state is the start step of the old one: a `tv` tag is emitted at once; any other tag is pushed |
| Xmltv.TagStack.HandleTagEnd | backend/src/processing/parser/xmltv.rs:320-354 | the new state is the end step of the old one: the top tag is popped, a `channel` or `programme` with content is emitted and other tags go to their parent; an empty stack is left alone |
| Xmltv.TagStack.HandleTextTag | backend/src/processing/parser/xmltv.rs:357-366 | the new state is the text step of the old one: non-blank text becomes the trimmed text of the top tag; nothing is emitted |
| Xmltv.TagStack.HandleEvent | backend/src/processing/parser/xmltv.rs:377-387 | one loop turn applies the step of its event to the state, an empty element being a start then an end |
| Xmltv.ParseTvGuide | backend/src/processing/parser/xmltv.rs:368-389 | the emitted tags are those of the left fold of the step function over the events, and each is a `tv`, `channel` or `programme` tag |
| Xmltv.Flatten | backend/src/processing/parser/xmltv.rs:418-483 | no guides give None; otherwise the result keeps the first guide's attributes |
| Xmltv.CollectChannels | backend/src/processing/parser/xmltv.rs:432-459 | the channel loop over one guide returns the specified channel pass |
| Xmltv.CollectProgrammes | backend/src/processing/parser/xmltv.rs:460-471 | the programme loop over one guide returns the specified programme pass |
| Xmltv.FlattenTvGuide | backend/src/processing/parser/xmltv.rs:418-483 | the method computes `Flatten` |
| Xmltv.ChannelStepInv | backend/src/processing/parser/xmltv.rs:434-456 | one channel step keeps ids unique and mapped, and stores only this guide's ids at its priority |
| Xmltv.ChannelStepNew | backend/src/processing/parser/xmltv.rs:434-456 | storing a new channel id keeps the invariant and records the id at the guide's priority |
| Xmltv.ChannelStepAppended | backend/src/processing/parser/xmltv.rs:433-459 | a channel step only appends the channel it was given |
| Xmltv.ChannelPassInv | backend/src/processing/parser/xmltv.rs:433-459 | the channel pass keeps the invariant, stores the guide's new ids and only appends its channels |
| Xmltv.ProgrammeStepInv | backend/src/processing/parser/xmltv.rs:460-471 | a programme step keeps every programme's channel mapped and leaves the mapping alone |
| Xmltv.ProgrammePassInv | backend/src/processing/parser/xmltv.rs:460-471 | the programme pass keeps the invariant and the mapping |
| Xmltv.GuideStepInv | backend/src/processing/parser/xmltv.rs:431-474 | one guide's two passes keep the invariant and record its new ids at its priority |
| Xmltv.FoldGuidesInv | backend/src/processing/parser/xmltv.rs:427-474 | over sorted guides: channel ids unique, every programme's channel present, and each id mapped to the lowest priority offering it |
| Xmltv.FoldGuidesProvenance | backend/src/processing/parser/xmltv.rs:431-474 | every kept tag comes from a guide whose priority won its channel |
| Xmltv.FoldGuidesLastStep | backend/src/processing/parser/xmltv.rs:431-474 | folding one more guide is one more guide step |
| Xmltv.FoldGuidesPass | backend/src/processing/parser/xmltv.rs:431-474 | the fold keeps the pass invariant for every bound at least the last priority |
| Xmltv.KeptStores | backend/src/processing/parser/xmltv.rs:431-474 | a tag kept earlier stays kept after later guides store their ids |
| Xmltv.FoldGuidesWinners | backend/src/processing/parser/xmltv.rs:427-474 | the mapping's ids are exactly those offered by some guide, each at its winning priority |
| Xmltv.OfferedKey | backend/src/processing/parser/xmltv.rs:427-474 | an id is mapped exactly when some input guide offers it |
| Xmltv.WinnerValue | backend/src/processing/parser/xmltv.rs:427-474 | a mapped id holds the lowest priority of the guides offering it |
| Xmltv.FoldGuidesMapping | backend/src/processing/parser/xmltv.rs:436-456 | the mapping is the per-id minimum priority over the folded guides |
| Xmltv.MinPrioritiesStep | backend/src/processing/parser/xmltv.rs:436-456 | one guide step keeps the per-id minimum |
| Xmltv.StepStoredFromGuide | backend/src/processing/parser/xmltv.rs:436-456 | every stored priority is the priority of a guide offering the id |
| Xmltv.StepOfferedStored | backend/src/processing/parser/xmltv.rs:436-456 | an id is stored exactly when a guide offers it |
| Xmltv.StepStoredMinimal | backend/src/processing/parser/xmltv.rs:436-456 | no guide offering an id has a lower priority than the stored one |
| Xmltv.FlattenChannels | backend/src/processing/parser/xmltv.rs:418-483 | the flattened guide has unique channel ids, exactly the offered ones, and every programme refers to one of them |
| Xmltv.KeptWins | backend/src/processing/parser/xmltv.rs:418-483 | a tag kept from a guide comes from a winner for its channel |
| Xmltv.FlattenKeepsWinners | backend/src/processing/parser/xmltv.rs:418-483 | every flattened tag comes from the best-priority guide offering its channel |
| MapperSyntax.CheckMatchKeyList | src/foundation/mapper.rs:415-418 | a key list is rejected exactly when it has several keys and one of them is `_` |
| MapperValidate.ValidateExpr | src/foundation/mapper.rs:223-320 | the validator returns exactly the specified expression check |
| MapperValidate.ValidateMatchKeys | src/foundation/mapper.rs:253-272 | the key loop returns exactly the specified key check |
| MapperValidate.ValidateMapKeys | src/foundation/mapper.rs:291-314 | the map key loop returns exactly the specified map key check |
| MapperValidate.Validate | src/foundation/mapper.rs:322-342 | script validation returns exactly the specified statement check |
| MapperValidate.CheckMatchKeysSpec | src/foundation/mapper.rs:253-272 | match keys pass exactly when all identifiers are known and `_` appears at most once |
| MapperValidate.MapKeysCons | src/foundation/mapper.rs:290-314 | map key facts (ranges ordered, distinct texts, `_` count) split into head and tail |
| MapperValidate.CheckMapKeysSpec | src/foundation/mapper.rs:288-313 | map keys pass exactly when ranges are ordered, texts are distinct and new, and `_` appears at most once overall |
| MapperValidate.CheckExprSpec | src/foundation/mapper.rs:223-320 | an expression passes exactly when it refers only to known names and is well formed |
| MapperValidate.CheckArgsSpec | src/foundation/mapper.rs:245-249 | arguments pass exactly when each refers only to known names and is well formed |
| MapperValidate.CheckMatchCasesSpec | src/foundation/mapper.rs:250-278 | match cases pass exactly when their key lists are distinct and their references known |
| MapperValidate.CheckMapCasesSpec | src/foundation/mapper.rs:280-317 | map cases pass exactly when keys are valid and distinct and their results are well formed |
| MapperValidate.CheckStatementsSpec | src/foundation/mapper.rs:322-342 | statements pass exactly when each refers only to names assigned before it |
| MapperValidate.ValidateAccepts | src/foundation/mapper.rs:322-342 | a script passes validation exactly when it is valid from no known names |
| MapperValidate.NoDuplicatesAppend | src/foundation/mapper.rs:261-274 | a concatenation is duplicate-free exactly when both parts are and they are disjoint |
| MapperValidate.KeyStringInjective | src/foundation/mapper.rs:261-274 | the text made of a match key list determines the list |
| MapperEval.CompareNumber | src/foundation/mapper.rs:639-649 | numbers within EPSILON compare equal; otherwise by sign of the difference |
| MapperEval.Truncate | src/foundation/mapper.rs:655-656 | truncation rounds toward zero |
| MapperEval.FormatWholeNumber | src/foundation/mapper.rs:652-660 | a whole number is printed as its integer digits |
| MapperEval.FormatNumberCases | src/foundation/mapper.rs:652-660 | a value far from every integer prints in float notation; one near an integer beyond the i64 range prints as the saturated bound |
| MapperEval.MatchNumber | src/foundation/mapper.rs:675-680 | the text matches exactly when it parses and compares equal to the number, that is, lies within EPSILON of it |
| MapperEval.CmpNumber | src/foundation/mapper.rs:682-687 | the text is comparable with a number exactly when it parses |
| MapperEval.ToNumberResult | src/foundation/mapper.rs:632-637 | the result is a number exactly when the text parses, else a failure |
| MapperEval.PairsToMap | src/foundation/mapper.rs:662-673 | the map has exactly the keys of the pairs |
| MapperEval.PairsToMapLastWins | src/foundation/mapper.rs:662-673 | each key holds the value of the last pair with that key |
| MapperEval.Matches | src/foundation/mapper.rs:691-701 | two values match exactly when they compare Equal |
| MapperEval.MatchesSymmetric | src/foundation/mapper.rs:690-722 | matching is symmetric |
| MapperEval.CompareReverse | src/foundation/mapper.rs:690-722 | swapping the operands reverses the comparison |
| MapperEval.CompareReflexive | src/foundation/mapper.rs:703-722 | every value other than Undefined and a failure compares Equal to itself |
| MapperEval.ConcatArgs | src/foundation/mapper.rs:729-751 | the argument loop returns the specified text pieces |
| MapperEval.PushNamed | src/foundation/mapper.rs:736-745 | the named-value loop appends exactly the specified pieces |
| MapperEval.NamedPiecesJoin | src/foundation/mapper.rs:736-745 | the pieces of named values join to the `key: value, ...` text |
| MapperEval.PairPiecesJoin | src/foundation/mapper.rs:188-197 | one pair's pieces join to `key: value`, with a comma except after the last |
| MapperEval.RenderValues | src/foundation/mapper.rs:729-751 | text renders as itself, numbers and named values by their format, other values as empty |
| MapperEval.ConcatRendersEach | src/foundation/mapper.rs:843 | concatenating the arguments is joining each argument's rendering |
| MapperEval.Retain | src/foundation/mapper.rs:835 | the retained values are exactly the defined ones among the evaluated |
| MapperEval.RetainSingle | src/foundation/mapper.rs:835 | a single value is retained exactly when it is defined |
| MapperEval.RetainConcat | src/foundation/mapper.rs:835 | retaining filters each part of a concatenation on its own, keeping the order |
| MapperEval.FirstFailure | src/foundation/mapper.rs:830-834 | None exactly when no argument failed; otherwise the message of the first failing argument |
| MapperEval.MapTrim | src/foundation/mapper.rs:845 | each piece is trimmed on its own |
| MapperEval.MapCapitalize | src/foundation/mapper.rs:847 | each piece is capitalized on its own |
| MapperEval.CallFunction | src/foundation/mapper.rs:828-863 | a failing argument fails the call; no defined argument gives Undefined; `print` gives no value; `concat` gives the rendering of the kept arguments in order; `trim` gives a trimmed text; `to_number` parses the first kept argument when it is text and passes any other value through |
| MapperEval.LookupPair | src/foundation/mapper.rs:778-785 | the result is the value of a pair with the key, or None when no pair has it |
| MapperEval.EvalVarAccessNamed | src/foundation/mapper.rs:772-788 | reading a field of a named variable gives the value of the first pair with that key, and fails exactly when no pair has it |
| MapperEval.UnboundKey | src/foundation/mapper.rs:867-872 | None exactly when every key identifier is set; otherwise the first key identifier that is unset |
| MapperEval.NumberInRange | src/foundation/mapper.rs:912-955 | a number matches a range key exactly when it lies in the range widened by EPSILON |
| MapperEval.AnyKeyAccepts | src/foundation/mapper.rs:906-966 | a map case with `_` accepts every value |
| MapperEval.EvalArgs | src/foundation/mapper.rs:829 | each argument has one result |
| MapperEval.EvalArgsPointwise | src/foundation/mapper.rs:829 | each argument's result is its own evaluation |
| MapperEval.EvalMatchFirst | src/foundation/mapper.rs:864-894 | a match block evaluates the first case whose keys all hold |
| MapperEval.EvalMatchNone | src/foundation/mapper.rs:864-894 | a match block with no holding case is Undefined |
| MapperEval.EvalMatchUnbound | src/foundation/mapper.rs:867-872 | a match block fails with "Variable with name ... not found" at the first reached case naming an unset variable |
| MapperEval.EvalMapFirst | src/foundation/mapper.rs:906-966 | a map block evaluates the first case with an accepting key |
| MapperEval.EvalMapNone | src/foundation/mapper.rs:906-966 | a map block with no accepting case is Undefined |
| MapperEval.EvalMapUnsetKey | src/foundation/mapper.rs:896-903 | a map block whose key variable is unset fails with "Map expression invalid! Variable with name ... not found." |
| MapperExec.MapperContext.constructor | src/foundation/mapper.rs:597-601 | a new context has no variables |
| MapperExec.MapperContext.SetVar | src/foundation/mapper.rs:603-605 | setting a variable updates only that variable |
| MapperExec.ValueAccessor.constructor | src/foundation/mapper.rs:1009-1011 | the record abstraction: an accessor over a playlist item, seen as the map of its field texts |
| MapperExec.ValueAccessor.Set | src/foundation/mapper.rs:183-198 | setting a field updates only that field |
| MapperExec.EvalStatement | src/foundation/mapper.rs:172-219 | one statement leaves the context and fields as `ExecStatement` specifies, and errs exactly when it does |
| MapperExec.EvalWithContext | src/foundation/mapper.rs:163-168 | a run leaves the context and fields as `ExecScript` specifies, and errs exactly when it does |
| MapperExec.EvalScript | src/foundation/mapper.rs:157-161 | a run from an empty context matches `ExecScript` |
| MapperExec.ExecScriptVariables | src/foundation/mapper.rs:163-168 | a run without error defines exactly the old variables plus those assigned |
| MapperExec.ExecScript | src/foundation/mapper.rs:163-168 | a run stops with an error only if the script has a field assignment |
| MapperExec.ExecStatementFrame | src/foundation/mapper.rs:172-219 | a statement defines its own variable and writes at most its own field; other fields are unchanged |
| MapperExec.ExecStatement | src/foundation/mapper.rs:172-219 | a statement fails exactly when it assigns a failing value to a field, and a failing statement changes neither variables nor fields |
| MapperExec.ExecScriptFields | src/foundation/mapper.rs:163-219 | a run writes only fields the script assigns, even when it stops with an error |
| MapperExec.FieldWriteRendersValue | src/foundation/mapper.rs:180-199 | assigning a text, number or named value to a field stores its rendering |
| MapperExec.FieldWriteIgnoresUndefined | src/foundation/mapper.rs:180-199 | assigning Undefined or `_` to a field changes neither the record nor the variables, and the run goes on |
| MapperExec.VariableAssignmentStores | src/foundation/mapper.rs:174-199 | a variable assignment stores the expression's value, which a later read of the variable returns; assigning that variable to a field then stores the value's rendering |

## Left out

- The pest grammar and the parser that builds the script AST (`src/foundation/mapper.rs` 345-590) are not modelled. Scripts are given as AST values. Two validation rules the parser enforces on keys are kept: `MapperSyntax.CheckMatchKeyList` and the identifier syntax used by `MapperValidate.KeyStringInjective`.
- Regular expressions, `f64` parsing and formatting, Unicode case mapping and `capitalize` are parameters of the `Builtins` record. They are external libraries. `Builtins` includes number parsing and the real-to-text formatter for non-whole numbers.
- Floating point is modelled as exact reals. `EPSILON` comparisons follow the source, but rounding is not modelled.
- TrimStartNonAlphanumeric: alphanumeric characters are the ASCII letters and digits, where Rust's `char::is_alphanumeric` is Unicode. The only caller, `normalize_channel_name` (`backend/src/processing/parser/xmltv.rs` 73), applies `deunicode` first, so the names it splits are ASCII.
- Whitespace for `trim` is ASCII whitespace only. Lower-casing of XMLTV ids (`to_lowercase`) is ASCII-only; non-ASCII letters are left as they are.
- `ValueAccessor` and the playlist item behind it are defined in `src/foundation/filter.rs`, which is not part of this model. The accessor is modelled as a map from field name to text.
- In the active user manager, the async `RwLock` and the connection guard's `Drop` are not modelled; each method is one atomic step. Logging and the user-count report are left out too.
- The clock and the random session token are method parameters. Times are whole seconds and must not go backwards (`NotBefore`).
- The source's fixed-width integers (`u32` counters, `u64` timestamps and grace values, `i16` priorities) are unbounded integers. The source never reaches their bounds on these paths.
- XML reading through quick_xml, entity unescaping and its errors, and file I/O are not modelled. `ParseTvGuide` takes a sequence of start, empty-element, text and end events; other events are not modelled, as the source ignores them.
- Fuzzy channel matching, `EpgIdCache`, `normalize_channel_name` and the EPG file processing and filtering around the core are not modelled. Only priority sorting is.
- `flatten_tvguide` walks guides with a parallel iterator. The model is a sequential fold over the stably sorted guides, in priority order, so the output order of tags is not a claim about the source's order.
- Xmltv.FlattenChannels: unique channel ids hold only for the sequential, priority-ordered schedule. Under the source's parallel iteration a guide of worse priority can be processed first: it stores its channel, and a better guide later stores the same id again, so two channel tags with one id are emitted (`backend/src/processing/parser/xmltv.rs` 430-457).
- Xmltv.FlattenKeepsWinners: winner-only output likewise holds only for the sequential schedule. Under the parallel iteration the worse guide processed first can also emit its programmes for that channel, when the stored priority still equals its own as it reaches them (`backend/src/processing/parser/xmltv.rs` 459-470). The comment at line 430, that the order does not matter when run in parallel, does not hold for the content.
- Config path cleaning, `resolve_directory_path`, secret resolution, sub-config `prepare` calls, `prepare_api_web_root` and web-root file checks are not modelled. `VideoConfig::prepare` is a parameter of `PrepareVideoConfig`, and the API-proxy user map is a parameter of `CheckUsername`.
- HTTP handlers, response building and the custom stream response in `api_utils.rs` are not modelled. `extract_extension_from_url` and the input user-info lookup are parameters.
- Enums from the shared model crate are modelled with only the variants these functions inspect.
- ApiUtils.GetStreamAlternativeUrl: its own contract covers only the case of a missing user info. The rewrite with both infos is stated by `AlternativeUrlRewrites` for URLs in which each credential's first character occurs only at that credential. URLs where a credential overlaps other text, or where an earlier replacement creates a new occurrence of a later credential, are not characterised.
- Xmltv.CollectTagAttributes: attribute keys are assumed distinct. quick_xml reports a repeated key as an error, which the source drops, so there the first occurrence stands; this fold would keep the last one.
- Xmltv.SortByPriority: stability of the sort (the source's `sort_by` is stable) is not stated.
