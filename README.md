# Brooklyn server core, modelled in Dafny

This project models six pieces of the Apache Brooklyn server and proves properties about them:

- **The workflow `let` step** (`SetVariableWorkflowStep`):
  - how its flags combine;
  - its small expression language, with `??`, `+ - * / %`, precedence and direction, and Java `int` arithmetic;
  - the string helpers that decide trimming;
  - the assignment of a value to a plain or dotted variable name among mutable, possibly shared maps.
- **The feed `Poller`**:
  - one-off jobs, fixed-rate jobs and sensor subscriptions;
  - `start`, `stop` and `isRunning`;
  - how `scheduleFeed` chooses between a fixed-rate job and subscriptions;
  - the per-job wrapper that calls the poll handler and logs a run of failures once.
- **The LDAP security provider**:
  - configuration normalisation;
  - the security principal and the search base it builds;
  - the account and group names it extracts;
  - the guards of `authenticate`.
- **The value-as-string Jackson support** (`CommonTypesSerialization`):
  - the first-match deserializer interceptor chain;
  - the case analysis of `deserialize`;
  - the plain or typed shape of `serializeWithType`;
  - the string forms of a management context and of a Brooklyn object.
- **The memento manifest builder**: six id-to-type maps with put and putAll semantics, a `build` that shares the builder's maps, and `isEmpty`.
- **The OpenSearch log store**: the JSON query for a page of entries, the required host, and the choice of authentication.

`wrappers.dfy` and `java_lang.dfy` hold the Java library behaviour the models rely on:
- the exceptions;
- 32-bit wrap-around;
- truncating division;
- `String.trim`;
- `String.split` with its trailing-empty rule, and its inverse `Join`;
- `toLowerCase`, on the ASCII letters only;
- `Integer.toString`, with a proved parser for it.

## Model

| member | source | states |
|---|---|---|
| SetVariableStep.ValidateStep | core/src/main/java/org/apache/brooklyn/core/workflow/steps/SetVariableWorkflowStep.java:84-92 | accepted iff both `variable` and `value` inputs are present; the missing one is named, `variable` first |
| SetVariableStep.RequireName | core/src/main/java/org/apache/brooklyn/core/workflow/steps/SetVariableWorkflowStep.java:96-99 | the name is accepted iff it is present and not blank, otherwise the same IllegalArgumentException |
| SetVariableStep.NewEvaluation | core/src/main/java/org/apache/brooklyn/core/workflow/steps/SetVariableWorkflowStep.java:145-185 | refused iff one of the flag rules is broken, with each of the seven messages exactly when its rule is the first one broken; merge_deep wins over merge; bash forces encode; an encoding evaluation yields String |
| SetVariableStep.ChooseMode | core/src/main/java/org/apache/brooklyn/core/workflow/steps/SetVariableWorkflowStep.java:151-166 | the YAML/JSON/bash checks fail exactly on yaml with json, encode with parse, bash with yaml, or bash with parse, each with its message; otherwise bash wins over json over yaml and bash forces encode |
| SetVariableStep.DescendKeepsAndReaches | core/src/main/java/org/apache/brooklyn/core/workflow/steps/SetVariableWorkflowStep.java:113-120 | the walk over the middle segments keeps every non-null entry and the top level, ends at the map the path reaches from the first one, or names a segment that is no map (the exact new state is `DescendIsWalked`'s) |
| SetVariableStep.Assign | core/src/main/java/org/apache/brooklyn/core/workflow/steps/SetVariableWorkflowStep.java:107-125 | a plain name is put at top level returning the old value; a dotted name needs a map at its first segment (otherwise the heap is untouched and the message names it); the walk's error leaves exactly the closed-form heap `Walked` describes and names the segment; on success the heap is that one with only the last segment of the reached map set, and the result is its previous value |
| SetVariableStep.DescendIsWalked | core/src/main/java/org/apache/brooklyn/core/workflow/steps/SetVariableWorkflowStep.java:113-120 | the loop over the middle segments is exactly: follow existing maps as far as they go; at a null entry make one new map per remaining segment, chained; at any other value stop with the heap unchanged and the message naming that segment |
| SetVariableStep.ChainedShape | core/src/main/java/org/apache/brooklyn/core/workflow/steps/SetVariableWorkflowStep.java:113-117 | the maps the walk creates are fresh references above every existing one, each holds only the link to the next (the last is empty), and the only existing map that changes is the one whose null entry was filled, at that one key |
| SetVariableStep.ScratchVariables.Walk | core/src/main/java/org/apache/brooklyn/core/workflow/steps/SetVariableWorkflowStep.java:113-120 | the loop in place on the store ends in the state and result of the walk's specification |
| SetVariableStep.ScratchVariables.Set | core/src/main/java/org/apache/brooklyn/core/workflow/steps/SetVariableWorkflowStep.java:107-125 | the in-place assignment ends in exactly the state and result `Assign` specifies, so maps shared between variables see the change |
| SetVariableEvaluation.TrimTokens | core/src/main/java/org/apache/brooklyn/core/workflow/steps/SetVariableWorkflowStep.java:414-418 | at most one token is dropped from each end, only a blank one, and the rest stays in order |
| SetVariableEvaluation.SplitAt | core/src/main/java/org/apache/brooklyn/core/workflow/steps/SetVariableWorkflowStep.java:400-412 | a cut exists iff some token is an operator; it is the leftmost (or rightmost) one and its sides are the trimmed remainders |
| SetVariableEvaluation.HandleTokenIfPresent | core/src/main/java/org/apache/brooklyn/core/workflow/steps/SetVariableWorkflowStep.java:400-412 | the index loop, running from either end, finds exactly the cut `SplitAt` specifies |
| SetVariableEvaluation.FindSplit | core/src/main/java/org/apache/brooklyn/core/workflow/steps/SetVariableWorkflowStep.java:375-386 | the chosen split is at an operator and leaves strictly fewer tokens, so evaluation terminates |
| SetVariableEvaluation.ProcessMaybe | core/src/main/java/org/apache/brooklyn/core/workflow/steps/SetVariableWorkflowStep.java:424-444 | a value is present iff evaluation gave non-null; an error propagates iff it is an Error, or an interruption while the current thread is interrupted; an interruption while it is not interrupted is an absent (unavailable) value |
| SetVariableEvaluation.Stitched | core/src/main/java/org/apache/brooklyn/core/workflow/steps/SetVariableWorkflowStep.java:388-397 | one token is resolved as an object; several succeed iff every token resolves to a String, the result being the String of their texts one after another |
| SetVariableEvaluation.Join | core/src/main/java/org/apache/brooklyn/core/workflow/steps/SetVariableWorkflowStep.java:390-397 | joining succeeds iff every token resolves, with the concatenation of every token's text in order ("null" for a null String); otherwise it fails with the error of the first token that fails |
| SetVariableEvaluation.JoinAppend | core/src/main/java/org/apache/brooklyn/core/workflow/steps/SetVariableWorkflowStep.java:390-397 | joining two token lists joins their texts |
| SetVariableEvaluation.NullishSplitsAtLeftmost | core/src/main/java/org/apache/brooklyn/core/workflow/steps/SetVariableWorkflowStep.java:376-377 | a list holding `??` gives the left value unless it is null or failed; the left failure itself if it propagates (an Error, or an interruption with the current thread interrupted); otherwise the right-hand side, so an interruption on another thread falls through to it |
| SetVariableEvaluation.NullishCases | core/src/main/java/org/apache/brooklyn/core/workflow/steps/SetVariableWorkflowStep.java:419-444 | `??` gives the left value when it is non-null, the left failure when it propagates (an Error, or an interruption with the current thread interrupted), and otherwise the right-hand side: on null, on a non-fatal failure and on an interruption from another thread |
| SetVariableEvaluation.AdditiveSplitsAtRightmost | core/src/main/java/org/apache/brooklyn/core/workflow/steps/SetVariableWorkflowStep.java:379-380 | without `??`, `+`/`-` cut at the rightmost one, so they associate to the left |
| SetVariableEvaluation.MultiplicativeSplitsAtRightmost | core/src/main/java/org/apache/brooklyn/core/workflow/steps/SetVariableWorkflowStep.java:382-383 | without `??`, `+`, `-`, the rightmost `*`/`/` is the cut |
| SetVariableEvaluation.ModuloSplitsAtRightmost | core/src/main/java/org/apache/brooklyn/core/workflow/steps/SetVariableWorkflowStep.java:385-386 | `%` is cut only when no other operator is present, at the rightmost one |
| SetVariableEvaluation.NoOperatorResolvesTokens | core/src/main/java/org/apache/brooklyn/core/workflow/steps/SetVariableWorkflowStep.java:388-397 | a list without operators is one resolved object or the joined text of all tokens |
| SetVariableEvaluation.IntOp | core/src/main/java/org/apache/brooklyn/core/workflow/steps/SetVariableWorkflowStep.java:486-504 | `+ - *` give the Java int result, exact when it fits and congruent mod 2^32 otherwise; `%` by zero is ArithmeticException, else the truncating remainder |
| SetVariableEvaluation.Remainder | core/src/main/java/org/apache/brooklyn/core/workflow/steps/SetVariableWorkflowStep.java:502-504 | the remainder is smaller than the divisor in magnitude and a = (a/b)*b + a%b with Java's truncating `/` |
| SetVariableEvaluation.ApplyMath | core/src/main/java/org/apache/brooklyn/core/workflow/steps/SetVariableWorkflowStep.java:460-484 | two integers go to the int operation; otherwise the double branch or an invalid-argument error, left side checked first; `%` has no double branch |
| SetVariableEvaluation.IntegerSum | core/src/main/java/org/apache/brooklyn/core/workflow/steps/SetVariableWorkflowStep.java:379-380 | two integer operands of the outermost `+` give their Java int sum |
| SetVariableEvaluation.ProcessString | core/src/main/java/org/apache/brooklyn/core/workflow/steps/SetVariableWorkflowStep.java:351-365 | blank input is returned unchanged, a wholly quoted input is one token, anything else is tokenized first |
| SetVariableEvaluation.UnquotedStartsWith | core/src/main/java/org/apache/brooklyn/core/workflow/steps/SetVariableWorkflowStep.java:187-194 | null is false; true implies the char occurs in the text; a trimmed text starting with a non-quote char is true |
| SetVariableEvaluation.UnquotedStartsWithIff | core/src/main/java/org/apache/brooklyn/core/workflow/steps/SetVariableWorkflowStep.java:187-194 | on a non-null text the test holds exactly when, after trimming and skipping a leading `"` and then a leading `'` (each only if present), the first char that is not blank is `c` |
| SetVariableEvaluation.TrimmedEndsWithQuote | core/src/main/java/org/apache/brooklyn/core/workflow/steps/SetVariableWorkflowStep.java:196-200 | true iff some quote char is followed only by whitespace |
| SetVariableEvaluation.ShouldTrim | core/src/main/java/org/apache/brooklyn/core/workflow/steps/SetVariableWorkflowStep.java:326-335 | only generated strings trim: always when ending in a quote, never for YAML ending `+` or `\|`, otherwise iff single-line |
| Feeds.Dispatch | core/src/main/java/org/apache/brooklyn/core/feed/Poller.java:128-158 | skipped iff the condition said false; a condition that throws goes to the catch block; a result reaches onSuccess/onFailure and clears the flag exactly when that handler returns normally; a handler or callable that throws an exception (an interruption included) reaches onException, sets the flag and logs at debug iff it was clear; only a java.lang.Error escapes, leaving the flag as it was |
| Feeds.Replay | core/src/main/java/org/apache/brooklyn/core/feed/Poller.java:115-158 | consecutive runs carry loggedPreviousException from each run to the next |
| Feeds.FlagClearedByResult | core/src/main/java/org/apache/brooklyn/core/feed/Poller.java:145-155 | a set flag is only cleared by a run whose onSuccess or onFailure call returned normally |
| Feeds.DebugOncePerFailureStreak | core/src/main/java/org/apache/brooklyn/core/feed/Poller.java:147-155 | between two debug-level failure logs some run completed an onSuccess or onFailure call without throwing |
| Feeds.PollJob.Run | core/src/main/java/org/apache/brooklyn/core/feed/Poller.java:128-158 | one run of the job object updates its flag and makes the handler calls (the first, and the catch block's when the first threw) exactly as `Dispatch` says, treating a missing condition as none |
| Feeds.PositivePeriod | core/src/main/java/org/apache/brooklyn/core/feed/Poller.java:242-245 | a job's period counts toward the minimum only when strictly positive |
| Feeds.MinPeriodIsLeast | core/src/main/java/org/apache/brooklyn/core/feed/Poller.java:242-245 | the running minimum is absent iff no job has a positive period, else it is some job's period and no larger than any |
| Feeds.SensorNamesAreTheTriggers | core/src/main/java/org/apache/brooklyn/core/feed/Poller.java:246-250 | the sensor names are distinct and are exactly the triggering jobs' sensors |
| Feeds.HighlightText | core/src/main/java/org/apache/brooklyn/core/feed/Poller.java:274-287 | the text for each of the four cases: "Not configured with a period or triggers", none where the period alone is handed to highlightTriggerPeriod, "Triggered by: " with the sensor set, and "Running every " with the period and the sensor set |
| Feeds.HighlightChoice | core/src/main/java/org/apache/brooklyn/core/feed/Poller.java:274-287 | the highlight case is chosen iff the jobs are periodic and/or triggered |
| Feeds.MinPositivePeriod | core/src/main/java/org/apache/brooklyn/core/feed/Poller.java:81-87 | the minimum over positive periods, Long.MAX_VALUE when there is none |
| Feeds.MinPeriodMillis | core/src/main/java/org/apache/brooklyn/core/feed/Poller.java:81-87 | the loop computes that minimum |
| Feeds.TriggerSpecs | core/src/main/java/org/apache/brooklyn/core/feed/Poller.java:92-100 | one subscription job per trigger of a config, with its entity, sensor and condition |
| Feeds.UnconfiguredGetsOneJob | core/src/main/java/org/apache/brooklyn/core/feed/Poller.java:78-105 | an identifier whose configs have no positive period and no triggers still gets exactly one fixed-rate job, at Long.MAX_VALUE |
| Feeds.TriggeredOnlyGetsNoFixedRate | core/src/main/java/org/apache/brooklyn/core/feed/Poller.java:101-103 | an identifier with at least one trigger and a minimum period not below PRACTICALLY_FOREVER gets subscriptions only, each with a trigger sensor |
| Feeds.Poller.Submit | core/src/main/java/org/apache/brooklyn/core/feed/Poller.java:174-179 | refused once started; otherwise the job is added unless already present |
| Feeds.Poller.ScheduleAtFixedRate | core/src/main/java/org/apache/brooklyn/core/feed/Poller.java:181-190 | refused once started; otherwise a new periodic job is appended |
| Feeds.Poller.Subscribe | core/src/main/java/org/apache/brooklyn/core/feed/Poller.java:192-194 | a new triggered job is appended, whether or not started |
| Feeds.Poller.Start | core/src/main/java/org/apache/brooklyn/core/feed/Poller.java:197-288 | refused when running; fails with NullPointerException iff there is no feed but tasks or triggers need one, having submitted nothing when a one-off job is there and otherwise the tasks of the poll jobs up to and including the first triggered one, with no subscription; otherwise one task per one-off and periodic job, a subscription iff triggered, and the highlight from the minimum period and sensors; no job's failure flag changes |
| Feeds.Poller.Stop | core/src/main/java/org/apache/brooklyn/core/feed/Poller.java:290-312 | refused when not running, with tasks and subscriptions untouched; otherwise every task is cancelled, every subscription dropped and the task lists cleared; no job's failure flag changes |
| Feeds.Poller.IsRunning | core/src/main/java/org/apache/brooklyn/core/feed/Poller.java:314-330 | started and some task under way or some subscription held; a stopped valid poller has neither, so the warnings cannot fire |
| Feeds.Poller.IsEmpty | core/src/main/java/org/apache/brooklyn/core/feed/Poller.java:332-334 | no poll job is registered, and then no subscription is held |
| Feeds.Poller.RunsJob | core/src/main/java/org/apache/brooklyn/core/feed/Poller.java:219-227 | a task runs its job iff the entity is managed and, when required, its service is up |
| Feeds.Poller.ScheduleEntry | core/src/main/java/org/apache/brooklyn/core/feed/Poller.java:79-104 | one identifier appends exactly its planned jobs: its subscriptions and, when the period rule allows, one fixed-rate job; it fails with IllegalState iff that job is due after start, having appended the trigger subscriptions already |
| Feeds.Poller.ScheduleFeed | core/src/main/java/org/apache/brooklyn/core/feed/Poller.java:78-105 | before start it always succeeds and appends exactly the planned jobs for every identifier; after start it fails with IllegalState iff some identifier needs a fixed-rate job, having appended the jobs of the identifiers before the first such one and that one's trigger subscriptions |
| Ldap.WithoutQuotes | rest/rest-resources/src/main/java/org/apache/brooklyn/rest/security/provider/LdapSecurityProvider.java:72 | no double quote remains and every other char keeps its count |
| Ldap.FromConfig | rest/rest-resources/src/main/java/org/apache/brooklyn/rest/security/provider/LdapSecurityProvider.java:64-83 | fails iff the URL is null or empty; a blank realm becomes "", a blank OU "Users", others lose their quotes |
| Ldap.Direct | rest/rest-resources/src/main/java/org/apache/brooklyn/rest/security/provider/LdapSecurityProvider.java:85-89 | the three values are kept as given and groups are not fetched |
| Ldap.SecurityPrincipal | rest/rest-resources/src/main/java/org/apache/brooklyn/rest/security/provider/LdapSecurityProvider.java:185-199 | a user with `@` or `\` is used as is; otherwise cn, ou and the lower-cased dc components of the realm |
| Ldap.BuildUserContainer | rest/rest-resources/src/main/java/org/apache/brooklyn/rest/security/provider/LdapSecurityProvider.java:144-153 | the builder loops and the final chop give the comma-join of the OU= and DC= entries |
| Ldap.ChopTerminated | rest/rest-resources/src/main/java/org/apache/brooklyn/rest/security/provider/LdapSecurityProvider.java:152 | chopping the trailing comma of comma-terminated entries gives their join |
| Ldap.AccountName | rest/rest-resources/src/main/java/org/apache/brooklyn/rest/security/provider/LdapSecurityProvider.java:155-161 | a user without `\` is kept; otherwise the last backslash-free segment, and ArrayIndexOutOfBounds iff the user is only backslashes |
| Ldap.GroupRun | rest/rest-resources/src/main/java/org/apache/brooklyn/rest/security/provider/LdapSecurityProvider.java:171 | the longest prefix of group-name chars |
| Ldap.GroupName | rest/rest-resources/src/main/java/org/apache/brooklyn/rest/security/provider/LdapSecurityProvider.java:169-177 | found iff the attribute starts with `CN=` and a name char; then the longest name after it, else IllegalStateException |
| Ldap.GroupNameReadsBack | rest/rest-resources/src/main/java/org/apache/brooklyn/rest/security/provider/LdapSecurityProvider.java:169-177 | the group of `CN=<group>,<rest>` is read back as `<group>` |
| Ldap.GroupNames | rest/rest-resources/src/main/java/org/apache/brooklyn/rest/security/provider/LdapSecurityProvider.java:133-139 | all memberOf values convert iff each is a valid group attribute, giving each one's name in order; otherwise the error is that of the first invalid one |
| Ldap.Authenticate | rest/rest-resources/src/main/java/org/apache/brooklyn/rest/security/provider/LdapSecurityProvider.java:93-139 | a null user, a blank password or a failed bind is refused; a successful bind without group fetching allows the user with no groups; with it, an account-name error or a group-name error is thrown as is, a failed search refuses, and otherwise the user is allowed with exactly the group names of the memberOf values |
| JacksonCommonTypes.Intercept | core/src/main/java/org/apache/brooklyn/core/resolve/jackson/CommonTypesSerialization.java:94-96 | a subtype interceptor answers iff the type has the supertype, with its deserializer |
| JacksonCommonTypes.FirstInterception | core/src/main/java/org/apache/brooklyn/core/resolve/jackson/CommonTypesSerialization.java:81-89 | absent iff every interceptor declines, else the answer of the first one that answers |
| JacksonCommonTypes.FirstHitIsTheInterception | core/src/main/java/org/apache/brooklyn/core/resolve/jackson/CommonTypesSerialization.java:83-86 | the first answering interceptor's value is the one returned |
| JacksonCommonTypes.InterceptibleDeserializers.FindBeanDeserializer | core/src/main/java/org/apache/brooklyn/core/resolve/jackson/CommonTypesSerialization.java:81-89 | the loop returns the first interception, or the fallback for a null type or no answer |
| JacksonCommonTypes.InterceptibleDeserializers.AddSubtypeInterceptor | core/src/main/java/org/apache/brooklyn/core/resolve/jackson/CommonTypesSerialization.java:94-96 | the interceptor is appended last |
| JacksonCommonTypes.StandardInterceptorsChoose | core/src/main/java/org/apache/brooklyn/core/resolve/jackson/CommonTypesSerialization.java:254-259 | after installation a BrooklynObject subtype gets its deserializer, a TypeToken subtype that is no BrooklynObject gets the TypeToken one, and a type gets none iff it is a subtype of none of the three |
| JacksonCommonTypes.DefaultSpecialMap | core/src/main/java/org/apache/brooklyn/core/resolve/jackson/CommonTypesSerialization.java:117-119 | the base special-map conversion always throws IllegalStateException |
| JacksonCommonTypes.NewEmptyInstance | core/src/main/java/org/apache/brooklyn/core/resolve/jackson/CommonTypesSerialization.java:105-115 | an empty instance iff there is a no-argument constructor, else IllegalArgumentException |
| JacksonCommonTypes.Deserialize | core/src/main/java/org/apache/brooklyn/core/resolve/jackson/CommonTypesSerialization.java:163-188 | top-level null gives an empty instance, strings, booleans and integers within the long range convert from text, other maps go to the special conversion, lists and integers beyond the long range (BigInteger) throw IllegalStateException with the message; null is returned only for a wrapped null |
| JacksonCommonTypes.WrappedScalarReadsAsScalar | core/src/main/java/org/apache/brooklyn/core/resolve/jackson/CommonTypesSerialization.java:167-179 | `{value: x}` with x a string or scalar reads as x |
| JacksonCommonTypes.WrappedNullIsNull | core/src/main/java/org/apache/brooklyn/core/resolve/jackson/CommonTypesSerialization.java:175-177 | a wrapped null is null while a bare null is not |
| JacksonCommonTypes.WrappedMapIsNotUnwrappedAgain | core/src/main/java/org/apache/brooklyn/core/resolve/jackson/CommonTypesSerialization.java:167-181 | a map inside `value` goes to the special conversion without a second unwrap |
| JacksonCommonTypes.DefaultConverterRefusesMaps | core/src/main/java/org/apache/brooklyn/core/resolve/jackson/CommonTypesSerialization.java:117-119 | with the base special-map conversion, a map that is not a lone `value` entry and a `value` entry holding a map are both IllegalStateException |
| JacksonCommonTypes.SerializeWithType | core/src/main/java/org/apache/brooklyn/core/resolve/jackson/CommonTypesSerialization.java:140-158 | writes exactly the typed form: null, a plain string when the base type implies the class, or `type` then `value` |
| JacksonCommonTypes.Serialize | core/src/main/java/org/apache/brooklyn/core/resolve/jackson/CommonTypesSerialization.java:136-138 | writes the value's string form |
| JacksonCommonTypes.TypedFormReadsBack | core/src/main/java/org/apache/brooklyn/core/resolve/jackson/CommonTypesSerialization.java:140-188 | what serializeWithType writes reads back, without its `type` property, as convertStringToObject of convertObjectToString; a null reads back as an empty instance |
| JacksonCommonTypes.ManagementContextFromText | core/src/main/java/org/apache/brooklyn/core/resolve/jackson/CommonTypesSerialization.java:240-246 | succeeds iff `default` with a context configured; IllegalArgumentException without one, IllegalStateException for other text |
| JacksonCommonTypes.ManagementContextRoundTrip | core/src/main/java/org/apache/brooklyn/core/resolve/jackson/CommonTypesSerialization.java:237-246 | any written context reads back as the configured one, and fails without one |
| JacksonCommonTypes.BrooklynObjectFromText | core/src/main/java/org/apache/brooklyn/core/resolve/jackson/CommonTypesSerialization.java:266-274 | no context is IllegalArgumentException; otherwise found iff the id is known, else IllegalStateException |
| JacksonCommonTypes.BrooklynObjectRoundTrip | core/src/main/java/org/apache/brooklyn/core/resolve/jackson/CommonTypesSerialization.java:263-274 | an object known under its id reads back as itself |
| JacksonCommonTypes.BrooklynObjectTypedRoundTrip | core/src/main/java/org/apache/brooklyn/core/resolve/jackson/CommonTypesSerialization.java:140-188 | a Brooklyn object written with its type reads back as itself; a top-level null is an error, since there is no empty instance |
| MementoManifest.IsEmptyContents | core/src/main/java/brooklyn/entity/rebind/dto/BrooklynMementoManifestImpl.java:152-158 | empty iff every map but the feed map is empty |
| MementoManifest.PutMakesNonEmpty | core/src/main/java/brooklyn/entity/rebind/dto/BrooklynMementoManifestImpl.java:53-83 | recording any non-feed object makes the manifest non-empty and the id maps to the type |
| MementoManifest.FeedsDoNotCount | core/src/main/java/brooklyn/entity/rebind/dto/BrooklynMementoManifestImpl.java:86-91 | recording feeds never changes emptiness |
| MementoManifest.LastWriteWins | core/src/main/java/brooklyn/entity/rebind/dto/BrooklynMementoManifestImpl.java:53-91 | a later put or putAll entry wins for the same id, and other kinds are untouched |
| MementoManifest.IdToTypeMap.Put | core/src/main/java/brooklyn/entity/rebind/dto/BrooklynMementoManifestImpl.java:53-55 | overwrites the id's type; a null id or type is NullPointerException and changes nothing |
| MementoManifest.IdToTypeMap.PutAll | core/src/main/java/brooklyn/entity/rebind/dto/BrooklynMementoManifestImpl.java:56-58 | the argument's entries are merged in and win |
| MementoManifest.Builder.Entity | core/src/main/java/brooklyn/entity/rebind/dto/BrooklynMementoManifestImpl.java:53-55 | only the entity map changes: one put, or NullPointerException and no change for a null id or type |
| MementoManifest.Builder.Entities | core/src/main/java/brooklyn/entity/rebind/dto/BrooklynMementoManifestImpl.java:56-58 | only the entity map changes, by a merge |
| MementoManifest.Builder.Location | core/src/main/java/brooklyn/entity/rebind/dto/BrooklynMementoManifestImpl.java:59-61 | only the location map changes: one put, or NullPointerException and no change for a null id or type |
| MementoManifest.Builder.Locations | core/src/main/java/brooklyn/entity/rebind/dto/BrooklynMementoManifestImpl.java:62-64 | only the location map changes, by a merge |
| MementoManifest.Builder.Policy | core/src/main/java/brooklyn/entity/rebind/dto/BrooklynMementoManifestImpl.java:65-67 | only the policy map changes: one put, or NullPointerException and no change for a null id or type |
| MementoManifest.Builder.Policies | core/src/main/java/brooklyn/entity/rebind/dto/BrooklynMementoManifestImpl.java:68-70 | only the policy map changes, by a merge |
| MementoManifest.Builder.Enricher | core/src/main/java/brooklyn/entity/rebind/dto/BrooklynMementoManifestImpl.java:71-73 | only the enricher map changes: one put, or NullPointerException and no change for a null id or type |
| MementoManifest.Builder.Enrichers | core/src/main/java/brooklyn/entity/rebind/dto/BrooklynMementoManifestImpl.java:74-76 | only the enricher map changes, by a merge |
| MementoManifest.Builder.CatalogItem | core/src/main/java/brooklyn/entity/rebind/dto/BrooklynMementoManifestImpl.java:78-80 | only the catalog-item map changes: one put, or NullPointerException and no change for a null id or type |
| MementoManifest.Builder.CatalogItems | core/src/main/java/brooklyn/entity/rebind/dto/BrooklynMementoManifestImpl.java:81-83 | only the catalog-item map changes, by a merge |
| MementoManifest.Builder.Feed | core/src/main/java/brooklyn/entity/rebind/dto/BrooklynMementoManifestImpl.java:86-88 | only the feed map changes: one put, or NullPointerException and no change for a null id or type |
| MementoManifest.Builder.Feeds | core/src/main/java/brooklyn/entity/rebind/dto/BrooklynMementoManifestImpl.java:89-91 | only the feed map changes, by a merge |
| MementoManifest.Builder.BrooklynVersion | core/src/main/java/brooklyn/entity/rebind/dto/BrooklynMementoManifestImpl.java:50-52 | sets the version and returns the same builder |
| MementoManifest.Builder.Build | core/src/main/java/brooklyn/entity/rebind/dto/BrooklynMementoManifestImpl.java:93-95 | a new manifest holding the builder's own six map objects, hence the same contents; the version is not carried over |
| MementoManifest.Manifest.IdToType | core/src/main/java/brooklyn/entity/rebind/dto/BrooklynMementoManifestImpl.java:121-149 | each getter shows exactly the current entries of its map |
| MementoManifest.Manifest.IsEmpty | core/src/main/java/brooklyn/entity/rebind/dto/BrooklynMementoManifestImpl.java:151-158 | the manifest is empty iff its five non-feed maps are |
| MementoManifest.PutAfterBuildIsVisible | core/src/main/java/brooklyn/entity/rebind/dto/BrooklynMementoManifestImpl.java:109-119 | a put on the builder after build shows in the built manifest and makes it non-empty |
| Logbook.Offset | core/src/main/java/org/apache/brooklyn/util/core/logbook/OpenSearchLogStore.java:179 | the offset is the magnitude of `from`, equal to the source's value for every int except MIN_VALUE |
| Logbook.MinIntOffsetIsNegative | core/src/main/java/org/apache/brooklyn/util/core/logbook/OpenSearchLogStore.java:179 | for Integer.MIN_VALUE the offset as written stays negative |
| Logbook.SortOrder | core/src/main/java/org/apache/brooklyn/util/core/logbook/OpenSearchLogStore.java:180 | `asc` iff `from` is positive, so zero sorts `desc` |
| Logbook.JsonQuery | core/src/main/java/org/apache/brooklyn/util/core/logbook/OpenSearchLogStore.java:178-189 | the query with the corrected offset (see Findings): fails iff `from` is null, with NullPointerException |
| Logbook.JsonQueryAsWritten | core/src/main/java/org/apache/brooklyn/util/core/logbook/OpenSearchLogStore.java:178-189 | the query as the source builds it fails iff `from` is null and is the corrected query for every `from` except Integer.MIN_VALUE |
| Logbook.JsonQueryAsWrittenMinInt | core/src/main/java/org/apache/brooklyn/util/core/logbook/OpenSearchLogStore.java:179-182 | for `from` = Integer.MIN_VALUE the query as written starts `{"from":-`, a negative offset |
| Logbook.JsonQueryReadsBack | core/src/main/java/org/apache/brooklyn/util/core/logbook/OpenSearchLogStore.java:182-188 | every query built reads back as the offset, the size verbatim (or null) and the sort order |
| Logbook.Initialize | core/src/main/java/org/apache/brooklyn/util/core/logbook/OpenSearchLogStore.java:146-155 | fails iff no host is configured |
| Logbook.Construct | core/src/main/java/org/apache/brooklyn/util/core/logbook/OpenSearchLogStore.java:101-144 | no host is NullPointerException; a non-blank API key gives the header `ApiKey <key>`; otherwise a host that is no URL is IllegalArgumentException with its message, a missing user is the IllegalArgumentException UsernamePasswordCredentials throws, and else basic credentials are scoped to the URL's host and port with the configured user and password; it fails exactly in those three cases |
| JavaLang.Split | core/src/main/java/org/apache/brooklyn/core/workflow/steps/SetVariableWorkflowStep.java:109 | String.split on one char: no part holds the separator, trailing empty parts are dropped, and joining the parts gives the input less trailing separators |
| JavaLang.IntToStringRoundTrip | core/src/main/java/org/apache/brooklyn/util/core/logbook/OpenSearchLogStore.java:184-185 | the decimal text of an int reads back as that int |

## Left out

- **Tokenizing and resolving** (QuotedStringTokenizer, `context.resolve`, `resolveWaiting`): these are inputs of the `let` step's Context. So are the coercions `asInteger`/`asDouble`, every double computation, and `/` on two ints, which the source does in floating point.
- **SetVariableEvaluation.ProcessMaybe**: exceptions have no cause chain here. `Interrupted` stands for every exception that `isCausedByInterruptInAnyThread` accepts, and `Context.threadInterrupted` is the thread's interrupt flag, an input.
- **`let` encode, parse and merge** (`evaluate`, JSON/YAML/bash coercion, `mergeInto`): not modelled. They rest on ObjectMapper, Yamls and BashStringEscapes, which are not part of this model.
- **The coercion mode as a string**: `specialCoercionMode` holds one of the strings "yaml", "json" and "bash" or null. The model uses the datatype `Coercion` with one constructor per string, since no other string is ever assigned.
- **Strings.isBlank, Strings.isMultiLine and String.trim**: isBlank and trim are taken as removing chars up to U+0020. isMultiLine is taken as "holds a line break".
- **Workflow metadata**: `noteOtherMetadata` and the returned previous step output are not modelled.
- **Poller scheduling with ScheduledExecutor and subscriptions**: task submission, scheduling and unsubscription are state changes on handles, without timing or concurrency.
- **Duration**: `Duration.toString` and `Duration.PRACTICALLY_FOREVER` are a `showPeriod` flag and a `forever` parameter.
- **Poller exceptions**: the texts quoted from subscription handles and tasks in exception messages are left out.
- **Poller logging**: the `isRunning` warnings and every log line other than the failure logs of the wrapped job are left out.
- **LDAP checkCanLoad**: the JNDI class loading and its ClassNotFoundException are not modelled.
- **LDAP directory**: the bind and the memberOf search are function parameters. `allow` (AbstractSecurityProvider) is taken to allow, and setting the session attribute is not modelled.
- **LDAP URL message**: the missing-URL message spells the config key's name as the text `BrooklynWebConfig.LDAP_URL`. The key's real `toString` is not part of this model.
- **Jackson machinery**: the Duration, Date, Instant and TypeToken (de)serializers and `createBeanDeserializer` are not modelled. They delegate to Time, Jackson's bean factory and a second mapper, none part of this model.
- **Jackson registration**: the interceptors and converters appear only as installed by `apply`, not module registration itself.
- **Logbook.Construct**: HttpHost's own check of the host name that the URL yields (HttpCore refuses a blank one) is not modelled, because HttpCore is not part of this model; such a host gets credentials here.
- **Ldap.Authenticate**: the memberOf search is one answer, all values or none (a NamingException, which refuses). The enumeration can also throw partway through. If one of the values read before that is not a valid group, the source throws that value's error first; the model only refuses there.
- **JacksonCommonTypes.Deserialize**: a `JMap` stands for the LinkedHashMap Jackson has built, whose keys are distinct; a `JMap` with a repeated key has no counterpart there and is read as it stands.
- **JacksonCommonTypes.Deserialize**: readValueAs yields null, strings, booleans, ints, lists and insertion-ordered maps here. Doubles are left out, because their text is floating point.
- **Jackson constants**: `DEFAULT`, `TYPE` and `VALUE` come from BrooklynJacksonSerializationUtils, which is not part of this model. Their values `default`, `type` and `value` are the ones the messages spell out.
- **Exceptions.propagate**: taken to rethrow runtime exceptions unchanged.
- **MementoManifest.IdToTypeMap.PutAll**: a map holding null values, which ConcurrentHashMap rejects part-way, is not modelled. The argument has no nulls.
- **Memento manifest concurrency**: the concurrent maps are modelled single-threaded. The unmodifiable views are read-only reads of the live map.
- **MementoManifest merge conflict**: the Java file does not compile as written, because it carries conflict markers. The model takes both sides: six maps, both plural-method families, and isEmpty as written (without the feed map).
- **OpenSearch I/O**: the HTTP client, SSL setup, `getEntries` and `query` are I/O and are left out. `java.net.URL` is the `parseUrl` parameter.
- **OpenSearch credentials**: UsernamePasswordCredentials belongs to HttpClient, which is not part of this model. Its null check on the user name, and the message "Username may not be null", follow HttpClient 4.
- **Logbook.JsonQuery**: builds the query with the corrected offset, which the rest of the model uses. `JsonQueryAsWritten` builds it as the source does, and the two agree for every `from` except Integer.MIN_VALUE.
- **JavaLang.ToLower**: lower-cases only the ASCII letters A to Z. Java's `toLowerCase` also maps other Unicode letters, by the default locale; the model does not cover those.
- **Feeds.Dispatch**: a handler whose `onException` itself throws lets that exception out of the run. The model does not cover this.
- **OpenSearch host key**: the key prefix comes from LogbookConfig, which is not part of this model. The comment in the source gives it as `brooklyn.logbook`.

## Findings

| source | as written | input that shows it | evidently intended | confidence | as-written member | corrected member |
|---|---|---|---|---|---|---|
| core/src/main/java/org/apache/brooklyn/util/core/logbook/OpenSearchLogStore.java:179 | `from >= 0 ? from : -from` on a Java int | `from = Integer.MIN_VALUE`: `-from` wraps to MIN_VALUE, so the query asks for a negative `from` | a non-negative offset, the magnitude of `from` | not executed | Logbook.JsonQueryAsWrittenMinInt | Logbook.Offset |
