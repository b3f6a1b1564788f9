# Verified models of the trading bot's algorithms and protocols

The repository is a trading bot with a web API around it. Most of it is handlers over services; this
project models the parts that carry an algorithm or a protocol of their own, in Dafny 4.11, and proves
what they promise. `dafny verify dfyconfig.toml` checks everything.

Code that changes things in place is modelled by classes, arrays and loops, and each such method is
proved equal to a specification function; the theorems are about those functions, over every input and
every run.

| files | what they model |
|---|---|
| `Text`, `Options`, `Queries` | string operations, `None`, and `query.filter(...).first()` |
| `YamlParser`, `YamlLoader` | the fallback YAML reader: a pure parser, and the reader with its cursor and its overwritten lines |
| `YamlPrinter`, `YamlRoundTrip`, `YamlBlankLines` | a printer for the reader's fragment, and that reading undoes printing |
| `Base64` | base64 as Python encodes and leniently decodes it, and the unpadded URL-safe codec |
| `BatchRun`, `RewrapLocal`, `RewrapSafety` | the migration of wrapped data keys to the local key, with crashes and dry runs |
| `RewrapBackup` | the migration of backup keys to AWS, with its verify-before-write loop and its limit |
| `SchemaText`, `SchemaOrder`, `SchemaReader`, `SchemaAdopted`, `SchemaRoundTrip` | the environment schema's printer, the order it prints in, and its line reader |
| `QuoteCache`, `QuoteRuns` | the quote endpoints and every run of them |
| `Utf8Bytes`, `Challenges` | which bytes are UTF-8, and passkey challenges under every interleaving |
| `Heartbeat` | heartbeats over the two-tier cache |
| `Follows`, `FollowHistory` | follower counts and who follows whom: the terminal, the bot, the mobile API and the Mini App, over the same tables |
| `Waitlist`, `WaitlistForms` | handle reservations and the referral forest, and which handles and addresses are taken |
| `Manifest`, `ManifestPolicy`, `ManifestTerms`, `IacTransition`, `ManifestScript` | the deployment manifest validator, its policy and the words of it, the migration gate, and the script as a whole |
| `HealthPayload`, `Probing`, `ProbedBody`, `StatusCheck`, `UptimeProbe` | the health payload walker, one probe, what its cut body says, the all-green verdict, the re-check loop |
| `Router` | the edge router's prefix tables |

## Assumptions

- A key service opens what it wrapped, and no blob opens to two different keys (`RewrapLocal.Sound`,
  `RewrapLocal.Wraps`, `RewrapBackup.Sound`). Services may otherwise fail at any call.
- Challenges and quote ids are drawn fresh.
- A JSON text may lose white space at its end; cut any shorter it is no object (`ProbedBody.Json`, which
  `ProbedBody.SomeParserReads` shows can be met). Nothing else is assumed of the JSON parser.
- Clocks, random draws, answers of the network, and which rows an unordered limited query returns are
  parameters: the theorems hold for all of them.

## Where the code does less than it seems to

- Schema round trip: a default without a newline but with another character at which `splitlines()` ends
  a line can plant a name that its service does not have (`SeparatorPlants`). `RoundTripExactly` says for
  which lists the reader is exact, in terms of the lines that the default brings in. A type with such a
  character loses its own field (`SeparatorLoses`); `OwnNameFoundIff` says exactly when a field is found.
- Quotes: the checks of an execution are not repeated after its await, so a quote can be executed after it
  was recorded and after its 45 seconds (`ExecutionOutlivesRecord`). It can exactly when one of its
  executions was being awaited at the time (`RecordedQuoteComesOutIff`, `AdmissionComesOutIff`). What
  always holds is that the admission was in time and before the recording.
- Quotes asked for without a session: any user with a Telegram, wallet or passkey session can record one
  (`RecordedIff`); nobody can execute it, as it is bound to no wallet.
- Heartbeats: the record in the tier that the monitor reads, Redis or a process's memory, is right after
  every event exactly while no event is harmful to it in that tier (`SummaryAlwaysIff`).
  The harm can show late: a failure that was filed in memory while Redis was away comes back after an ok
  beat (`OldOutageResurfaces`). And a configured source with other characters than letters, digits, `_`
  and `-`, or longer than 40, can never be written (`OnlyPlainSourcesBeat`).
- Followers, mobile API: its unfollow compares one number with a user in one table and with a profile id
  in the other. It keeps the counts only when the two agree (`MobileUnfollowKeepsIff`), and there are
  reachable states in which they do not (`MobileUnfollowBreaks`).
- Followers, Mini App: it writes the same follow rows and leaves the profiles alone, so each follow that it
  accepts puts a count wrong (`MiniAppFollowKeepsIff`), and the terminal's unfollow then clamps or takes
  off one too many (`MiniAppFollowThenUnfollow`). Conservation holds of the terminal and the bot.
- Backup keys: with a target key id that is neither an ARN nor an alias the backlog never shrinks
  (`UnknownTargetNeverDrains`), and the same rows are tried again and again.
- Token migration: a token that fails by half can leave a change in the session that no commit takes;
  `TokenStrandedIff` says when, and `FailedTokenStaysUncommitted` is such a run. The stored row is the old
  one, so nothing is lost.
- Status: of an answer only the first 4000 bytes are read, and a cut body does not parse. So a service that
  says it is unwell is reported as ok exactly when what it sends is longer than that
  (`ComplaintUnseenIff`, `LongComplaintPasses`). The uptime monitor reads the same way (`HealthyIffSent`).
- Uptime: a hard failure after a degraded check keeps that check's list of subsystems
  (`FailureMayCarryStaleList`).
- Waitlist: for a handle of 32 characters the last-resort referral code is one character wider than its
  column, so such a handle runs out of codes earlier (`AvailabilityIsHonest`).
- YAML: a comment behind a value in quotes, or right behind a key's colon, is not cut off but becomes part of
  the value (`CommentCutIff`).
- YAML: a mapping more than one column deeper than its key is read as empty and ends the mapping around it
  (`MapUnderKeyColumn`), as the printer's column rule reflects.

## Model

| member | source | states |
|---|---|---|
| YamlLoader.Loader.ParseBlock | scripts/doctor.py:184-229 | returns the pure parser's value, leaves exactly the lines that parser leaves unread, never moves back, and changes no line from the cursor on |
| YamlLoader.Loader.ParseItems | scripts/doctor.py:197-227 | the same of the list loop, at every loop head |
| YamlLoader.Loader.ParseItem | scripts/doctor.py:214-226 | the same of one item: the line overwritten in place ends up behind the cursor, also through the progress guard |
| YamlLoader.Loader.ParseMapping | scripts/doctor.py:231-275 | the same of the mapping loop |
| YamlLoader.Loader.GatherFolded | scripts/doctor.py:258-268 | the same of the folded-text loop |
| YamlLoader.MinimalYamlLoad | scripts/doctor.py:157-278 | the reader with cursor and overwritten lines returns what the pure parser returns for the text, and terminates on every text |
| YamlParser.PutIsUpdate | scripts/doctor.py:268-274 | storing an entry changes what is under its key and nothing else; a new key comes last, a known one keeps its place |
| YamlBlankLines.ItemMappingStuck | scripts/doctor.py:216-223 | the guard acts exactly when the content is indented further or is itself a list item; in every other case the cursor moves |
| YamlBlankLines.BlankLinesDoNotMatter | scripts/doctor.py:188-204 | two texts that differ only in blank and comment lines are read alike |
| Text.SpacesAre | scripts/doctor.py:164-169 | the white space that stripping takes off |
| YamlPrinter.UnescapeEscape | scripts/doctor.py:176-177 | unescaping undoes escaping of double quotes, whatever backslashes the text holds |
| YamlPrinter.ScalarBack | scripts/doctor.py:168-180 | a printed boolean, plain or quoted text is read back as itself |
| YamlRoundTrip.PrintThenLoad | scripts/doctor.py:157-278 | printing a document, with any comments behind its unquoted values, and reading the text gives back its value, at every nesting depth |
| YamlRoundTrip.CommentCutIff | scripts/doctor.py:248-252 | a comment behind an entry is cut off exactly when there is a value on the line and it is not in quotes |
| YamlRoundTrip.LoadAmongBlanksAndComments | scripts/doctor.py:163-204 | the same with blank and comment lines anywhere between the printed lines |
| YamlRoundTrip.MapUnderKeyColumn | scripts/doctor.py:229-272 | a mapping under a key is read at exactly one column more; deeper ones read as empty and stay unread |
| Base64.PaddedRoundTrip | scripts/rewrap_kms_to_local.py:69-82 | decoding an encoded blob gives it back, and the text holds no bar |
| Base64.UrlRoundTrip | api/main.py:2040-2046 | decoding after encoding is the identity on every byte string |
| Base64.UrlEncodeShape | api/main.py:2040-2046 | the encoded length is 4n/3 rounded up and never 1 modulo 4, stripping removes only the padding, and the decoder restores exactly that |
| Base64.UrlEncodeInjective | api/main.py:2045-2046 | different byte strings have different encodings |
| BatchRun.CommitShape | scripts/rewrap_kms_to_local.py:99-124 | at any row, the store holds the effect of the rows up to the last commit and the session that of all rows so far; the pending rows are those rewrapped in between and stay below a positive batch size |
| BatchRun.CountersShape | scripts/rewrap_kms_to_local.py:100-122 | each counter is the number of rows judged so |
| BatchRun.DryRun | scripts/rewrap_kms_to_local.py:115-124 | a dry run changes nothing and reports the counters of a committing run |
| BatchRun.StoreMissesIff | scripts/rewrap_kms_to_local.py:139-190 | the session differs from the store after a committing run exactly when a changed but failed row has no commit after it: none rewrapped after it, and full batches |
| RewrapLocal.RewrapKeepsKey | scripts/rewrap_kms_to_local.py:64-85 | re-wrapping keeps the key; what it produces opens locally, is not empty and has no bar; it declines exactly the blobs that open locally |
| RewrapLocal.OutcomeIff | scripts/rewrap_kms_to_local.py:64-85 | a key is re-wrapped exactly when its text decodes, it does not open locally, AWS answers and opens it and the local key wraps it; the new text is the encoding of that wrap |
| RewrapLocal.MigrateWalletLike | scripts/rewrap_kms_to_local.py:92-124 | the loop leaves store, session, counters and pending rows as the run function says |
| RewrapLocal.RewrapOAuth | scripts/rewrap_kms_to_local.py:141-185 | one token's body: session, counters, and whether the batch test is reached |
| RewrapLocal.MigrateOAuth | scripts/rewrap_kms_to_local.py:127-190 | the loop leaves store, session, counters and pending rows as the run function says |
| RewrapSafety.WalletCrashSafe | scripts/rewrap_kms_to_local.py:99-124 | wherever a committing run ends, cut off or finished with failures, every stored key opens to its original key, with nonce and ciphertext unchanged |
| RewrapSafety.WalletConvergence | scripts/rewrap_kms_to_local.py:92-124 | after any runs, cut off or finished with failures, a run without failures reaches the result of an uninterrupted one: local wraps of the same keys |
| RewrapSafety.WalletIdempotent | scripts/rewrap_kms_to_local.py:70-77 | a second run after one without failures rewraps nothing and leaves the store identical |
| RewrapSafety.WalletAccounting | scripts/rewrap_kms_to_local.py:99-124 | scanned = rewrapped + already local + without key + failed; nothing is pending at the end |
| RewrapSafety.WalletMarkIff | scripts/rewrap_kms_to_local.py:92-118 | when a wallet is left out, without key, already local or re-wrapped, by the services alone |
| RewrapSafety.WalletRunFailsIff | scripts/rewrap_kms_to_local.py:92-124 | a run has no failures exactly when every key is local or can be moved |
| RewrapSafety.WalletsMigrate | scripts/rewrap_kms_to_local.py:92-124 | after any history, one run in which AWS and the local key do their part for every key of the original table fails for none and leaves every key local and the row's own |
| RewrapSafety.Rejoined | scripts/rewrap_kms_to_local.py:162-167 | replacing part 0 of a refresh blob gives a blob that splits into the new part and the two old ones |
| RewrapSafety.OAuthCrashSafe | scripts/rewrap_kms_to_local.py:139-190 | wherever a committing run ends, cut off or finished with failures, both stored keys of every token open to their original keys and the other parts are unchanged |
| RewrapSafety.OAuthConvergence | scripts/rewrap_kms_to_local.py:127-190 | after any runs, cut off or finished with failures, a run without failures leaves every key field local-wrapped, standing for its original key |
| RewrapSafety.OAuthIdempotent | scripts/rewrap_kms_to_local.py:127-190 | a second run after one without failures rewraps nothing and leaves the store identical |
| RewrapSafety.OAuthAccounting | scripts/rewrap_kms_to_local.py:139-190 | scanned = rewrapped + already local + failed; nothing is pending at the end |
| RewrapSafety.TokenMarkIff | scripts/rewrap_kms_to_local.py:139-185 | when a token is left out, failed or re-wrapped, by the services and the text of its two fields alone; a refresh blob with a bar that is not three parts fails |
| RewrapSafety.OAuthRunFailsIff | scripts/rewrap_kms_to_local.py:127-190 | a run over the tokens has no failures exactly when both keys of every token are local or can be moved and no blob is malformed |
| RewrapSafety.TokensMigrate | scripts/rewrap_kms_to_local.py:127-190 | after any history, one run in which the services do their part for every key of the original tokens fails for none and leaves every key local and the token's own |
| RewrapSafety.FailedButChangedIff | scripts/rewrap_kms_to_local.py:145-180 | a failed token is changed all the same exactly when one of its keys was re-wrapped and the other failed |
| RewrapSafety.TokenStrandedIff | scripts/rewrap_kms_to_local.py:139-190 | a committing run ends with a change the store never gets exactly when such a token has no commit after it |
| RewrapSafety.WalletsNeverStranded | scripts/rewrap_kms_to_local.py:99-124 | for wallets session and store agree at the end of every committing run |
| RewrapBackup.JudgedIff | scripts/rewrap_backup_keys_to_aws.py:93-139 | a row is migrated exactly when its key id is not AWS's, its key opens, is sealed, and AWS opens the seal to the same plaintext; it then holds that seal |
| RewrapBackup.RecognisedIff | scripts/rewrap_backup_keys_to_aws.py:46-48 | the key ids taken for AWS's are the ARNs and the aliases |
| RewrapBackup.RunFailsIff | scripts/rewrap_backup_keys_to_aws.py:93-145 | a run fails for no row exactly when the services can move every row that was picked |
| RewrapBackup.RewrapRow | scripts/rewrap_backup_keys_to_aws.py:93-139 | one row in place: written only if AWS decrypted the new fields to the same plaintext, otherwise untouched |
| RewrapBackup.Rewrap | scripts/rewrap_backup_keys_to_aws.py:73-145 | the loop leaves the table, the four counters and the exit code as specified |
| RewrapBackup.RunsKeepEveryKey | scripts/rewrap_backup_keys_to_aws.py:93-139 | after any number of runs, with any failures and any wrong seals, every row holds its plaintext: untouched, or decrypted to it by AWS |
| RewrapBackup.NothingIsSkipped | scripts/rewrap_backup_keys_to_aws.py:75-97 | the query already leaves out migrated rows, so every picked row is migrated or failed |
| RewrapBackup.BacklogAfter | scripts/rewrap_backup_keys_to_aws.py:46-48 | a writing run takes exactly the migrated rows off the backlog, or none if the filter does not know the target key id |
| RewrapBackup.BacklogIsDrained | scripts/rewrap_backup_keys_to_aws.py:79-91 | runs with a limit and no failure take that many rows off the backlog each, until none are left |
| RewrapBackup.EmptyAfterCeiling | scripts/rewrap_backup_keys_to_aws.py:79-91 | the backlog is empty after exactly as many such runs as the limit goes into it, rounded up |
| RewrapBackup.UnlimitedRunDrains | scripts/rewrap_backup_keys_to_aws.py:89-91 | without a limit one run without failures empties the backlog |
| RewrapBackup.UnknownTargetNeverDrains | scripts/rewrap_backup_keys_to_aws.py:46-91 | under an unrecognised target key id no run changes the backlog |
| SchemaText.RenderSchema | scripts/check_env_schema.py:252-274 | grouping, sorting, sections and the final trim produce the specified text |
| SchemaText.SortedKeeps | scripts/check_env_schema.py:258-259 | sorting keeps the elements, with multiplicity |
| SchemaText.SortedOrders | scripts/check_env_schema.py:258-259 | sorting orders by the key |
| SchemaOrder.StringLeIff | scripts/check_env_schema.py:258-259 | the order sorted by is code point order: a prefix first, or the smaller character where two names first differ |
| SchemaOrder.SectionLineIs | scripts/check_env_schema.py:260 | a section's line names its service and ends in dashes, at least one, up to a common width |
| SchemaOrder.PrintedInOrder | scripts/check_env_schema.py:252-274 | the text is the header and one section for each service, in rising order of service, in each the fields of that service in order of name, and every field as often as it is listed |
| SchemaOrder.OneOrder | scripts/check_env_schema.py:252-274 | with distinct fields only one sequence of sections is in that order |
| SchemaOrder.CollectedInAnyOrder | scripts/check_env_schema.py:277-300 | so lists of distinct fields that are permutations of each other print the same text |
| SchemaReader.ParseSchema | scripts/env_parity.py:42-67 | the line loop returns what the reader function returns |
| SchemaReader.BreaksAre | scripts/env_parity.py:50 | the ten characters at which a line ends |
| SchemaReader.OneCharacterBreak | scripts/env_parity.py:50 | a line ends at any of them, unless a carriage return has a newline behind it |
| SchemaReader.TwoCharacterBreak | scripts/env_parity.py:50 | and then the two are one break |
| SchemaReader.LastServiceFound | scripts/env_parity.py:54-57 | the greedy tag match finds the service printed last on the line |
| SchemaRoundTrip.WhatIsTold | scripts/env_parity.py:50-67 | what is read from a printed list is what each field's two lines tell on their own, if no type holds a line break or no default leaves a tag line open |
| SchemaRoundTrip.ToldIs | scripts/env_parity.py:50-67 | whatever type and default hold, a field's lines tell what the type's lines tell, the field's name if a tag line of the service is open when it comes, and what the default's lines tell |
| SchemaRoundTrip.OwnNameFoundIff | scripts/env_parity.py:50-67 | with a default in one line and any type, the field's own name is found exactly when such a tag line is open, or the type spells out tag and name |
| SchemaRoundTrip.SeparatorLoses | scripts/env_parity.py:50-67 | a type without a newline can make the reader miss its field, in every service |
| SchemaRoundTrip.WhatIsRead | scripts/env_parity.py:50-67 | what is read from any printed list: each service's own names and what the defaults plant, when no type holds a line break |
| SchemaAdopted.ReadIsAdopted | scripts/env_parity.py:53-67 | the names found are those of the name lines behind a tag line of the service with nothing told between the two, and required is what that tag says |
| SchemaRoundTrip.RoundTripExactly | scripts/check_env_schema.py:252-274 | reading recovers a service's required and all names exactly when no default holds, behind a line break, such a pair of lines for a name the service lacks |
| SchemaRoundTrip.RoundTrip | scripts/check_env_schema.py:252-274 | reading undoes printing for every list whose defaults have no line break |
| SchemaRoundTrip.SeparatorPlants | scripts/env_parity.py:50-66 | a default without a newline can still plant a field of its choice |
| QuoteCache.WalletForChain | api/webapp.py:1017-1028 | the wallet returned is the user's, active, of the chain family, and preferred to every other such wallet |
| QuoteCache.Terminal.Cleanup | api/webapp.py:760-768 | popping the collected ids leaves exactly the quotes not older than 45 seconds |
| QuoteCache.Terminal.Quote | api/webapp.py:4045-4079 | the new quote is bound to the session's user and preferred wallet; expired quotes are gone, the others stay |
| QuoteCache.Terminal.Build | api/webapp.py:4276-4288 | the new quote is of the session's user and bound to no wallet of the server; expired quotes are gone, the others stay |
| QuoteCache.Terminal.BeginExecute | api/webapp.py:4147-4178 | the admission is the specified one and the quote stays cached |
| QuoteCache.Terminal.Record | api/webapp.py:4371-4415 | the answer is the specified one; the quote is dropped exactly on success |
| QuoteCache.AdmittedIff | api/webapp.py:4147-4178 | an execution goes ahead exactly for a Telegram, wallet or passkey session, a quote not older than 45 seconds that is the session's or nobody's, and the first active row of the quoted wallet, user and family, at the quoted address and able to sign |
| QuoteCache.RecordedIff | api/webapp.py:4371-4415 | a record is accepted exactly for such a session and quote, a hash of one of the two shapes, and a commit that succeeds |
| QuoteCache.CacheAfterAdmit | api/webapp.py:4147-4152 | only such a session's execution removes expired quotes, and it removes nothing else |
| QuoteCache.CacheAfterRecord | api/webapp.py:4371-4415 | a record removes expired quotes once session and hash are in order, and its own quote when it is accepted |
| QuoteRuns.RecordedOnceThenSpent | api/webapp.py:4384-4415 | in every run a quote is recorded at most once, and then neither admitted nor recorded again |
| QuoteRuns.SuccessIsBound | api/webapp.py:4147-4187 | in every run each admission and record is by a Telegram, wallet or passkey session and within 45 seconds; an admission is the quoting user's, on the wallet and address bound at quote time; a record is the quoting user's unless the quote had none; each execution follows an admission |
| QuoteRuns.RecordedQuoteComesOutIff | api/webapp.py:4149-4187 | after its record a quote is executed in some continuation, at whatever time, exactly when one of its executions was being awaited |
| QuoteRuns.AdmissionComesOutIff | api/webapp.py:4179-4187 | an admitted execution can still succeed, at whatever time, exactly while it is awaited |
| QuoteRuns.ExecutionOutlivesRecord | api/webapp.py:4180-4187 | such executions happen, at any later time |
| Utf8Bytes.Utf8Iff | api/main.py:2067-2071 | the byte strings that decode are the encodings of texts, by sections 3 and 4 of RFC 3629, and only those |
| Challenges.Passkeys.GetDel | bot/utils/redis_cache.py:161-206 | fetching deletes in one step and yields nothing that has expired |
| Challenges.Passkeys.VerifyPasskeyChallenge | api/main.py:2056-2090 | the answer and the store afterwards, for every client data and every behaviour of the store |
| Challenges.FirstUseSpends | api/main.py:2074-2090 | in every interleaving the first request that reaches the store with a challenge spends it, whatever its flow and answer: no later one is accepted |
| Challenges.AnswerIff | api/main.py:2074-2090 | which answer a readable challenge gets: the store failed, no live entry, the other kind, accepted |
| Challenges.LaterRequestRefused | api/main.py:2074-2090 | of two requests that reach the store with one challenge the later is never accepted, whatever comes before, between and after |
| Challenges.AcceptedWasOffered | api/main.py:2074-2090 | an accepted request answers an offer of its own kind, made before it and at most 300 seconds earlier |
| Challenges.UsesAreKept | api/main.py:2074-2080 | no use of a challenge is forgotten as a run goes on |
| Challenges.AcceptedIsIssued | api/main.py:2084-2090 | an accepted request is within the challenge's lifetime and of its own flow: `webauthn.create` for a registration, any other type for an authentication |
| Challenges.EchoAccepted | api/main.py:2067-2090 | a client that echoes a live challenge to its own flow is accepted, and the challenge spent, exactly when the challenge is UTF-8 text |
| Challenges.IssuedThenEchoed | api/main.py:2129-2150 | a challenge as the server draws them, echoed to its own flow, is accepted exactly while 300 seconds have not passed, and is spent in either case |
| Heartbeat.OnlyPlainSourcesBeat | api/main.py:2988-2995 | a configured source is ever written exactly when its name survives the sanitiser |
| Heartbeat.KeysAreBounded | api/main.py:2988-2995 | stored keys are configured sources or `unknown` |
| Heartbeat.Cache.Get | bot/utils/redis_cache.py:73-96 | Redis when it answers, otherwise the process's memory, dropping what has expired there |
| Heartbeat.Cache.MonitorHeartbeat | api/main.py:2963-3023 | the request's effect on both tiers is that of one beat of the filed source; nothing changes without the token |
| Heartbeat.SummaryEqualsHistory | api/main.py:2998-3020 | in either tier: while every event is harmless to a source there, its record carries its last beat, and `fail_since` is the time of the beat that opened its current run of failures |
| Heartbeat.SummaryAlwaysIff | api/main.py:2998-3020 | in either tier: the record is right after every event exactly when every event is harmless there: the source's beats go to that tier, a failure after a failure finds its record there in time, and the tier drops nothing |
| Heartbeat.OpeningUnique | api/main.py:3003-3011 | there is only one such opening beat |
| Heartbeat.RecordsAreHonest | api/main.py:3003-3020 | whatever the cache does, no record is invented and a failure time is that of a failing beat of the same source |
| Follows.CopyTrading.FollowTerminalTrader | api/webapp.py:2541-2584 | the answer and both tables afterwards |
| Follows.CopyTrading.UnfollowTerminalTrader | api/webapp.py:2587-2615 | the answer and both tables afterwards |
| Follows.CountsAreConserved | api/webapp.py:2553-2615 | over every sequence of terminal and bot requests each trader's count is the number of active rows for that trader, a pair has one row at most, nobody follows themselves |
| Follows.ClampNeverActs | api/webapp.py:2612-2613 | in every reachable state a successful unfollow lowers a positive count by one |
| Follows.FollowAcceptedIff | api/webapp.py:2553-2584 | exactly when a follow is accepted; a refused one changes nothing |
| Follows.FollowSettles | api/webapp.py:1147-1171 | an accepted follow leaves an active row of the pair with the mode, the kind and the limits asked for |
| Follows.UnfollowAcceptedIff | api/webapp.py:2596-2615 | exactly when an unfollow is accepted, public or not; only the pair's row changes |
| Follows.NobodyFound | api/webapp.py:2553-2600 | a number that is no profile's id is answered alike by both requests, and changes nothing |
| Follows.UnfollowUndoesFollow | api/webapp.py:2541-2615 | an unfollow restores every profile that the follow changed |
| Follows.DroppedKeeps | bot/services/copy_service.py:253-276 | dropping an active row keeps the tables consistent exactly when the lowered profile is its trader's |
| Follows.MobileUnfollowKeepsIff | api/routes/mobile.py:1647-1671 | the mobile unfollow keeps the counts exactly when it finds nothing, or when its number is both the trader's user and the id of that trader's profile |
| Follows.MobileUnfollowBreaks | api/routes/mobile.py:1647-1671 | a reachable state in which it does not |
| Follows.MiniAppFollowKeepsIff | api-ts/src/services/CopyTradingService.ts:379-451 | the Mini App's follow keeps the counts exactly when it is refused |
| Follows.MiniAppUnfollowKeepsIff | api-ts/src/services/CopyTradingService.ts:453-485 | its unfollow keeps the counts exactly when the pair has no active row |
| Follows.MiniAppFollowThenUnfollow | api-ts/src/services/CopyTradingService.ts:379-451 | after a Mini App follow the terminal's unfollow clamps if nobody followed, and otherwise leaves the count one too low |
| FollowHistory.BotFollowAcceptedIff | bot/services/copy_service.py:187-250 | exactly when the bot accepts a follow: a public trader who is not oneself, fewer than five active rows, none of the pair |
| FollowHistory.FollowingIffStanding | api/webapp.py:2541-2615 | in every run of the terminal and the bot one user follows another exactly when one of the two accepted a follow of the pair and neither has accepted an unfollow since |
| Waitlist.Signups.GenerateReferralCode | bot/services/waitlist_service.py:124-144 | the first short code that is free, or the long one |
| Waitlist.Signups.WaitlistReserve | api/webapp.py:1762-1851 | the answer and the table afterwards |
| WaitlistForms.HandleRefusedIff | bot/services/waitlist_service.py:46-93 | a handle is taken exactly when it has 3 to 32 characters, words of small letters and digits with single hyphens between them, and is not reserved; and when it is refused as reserved |
| WaitlistForms.ValidEmailIff | api/webapp.py:1788-1790 | an address is valid exactly when it has an at sign, a dot behind the last one, and at most 254 characters |
| WaitlistForms.NewRowIs | api/webapp.py:1788-1837 | a new row holds the request's own address and handle in small letters, the contact cut to 64 characters, and a code of the handle in capitals and one of the suffixes drawn |
| Waitlist.TableInvariant | api/webapp.py:1804-1847 | in every reachable state emails, handles and codes are unique, and whoever is credited for a row joined before it under another email |
| Waitlist.Referrers | bot/models/waitlist.py:39-41 | following referrers strictly descends and ends at a row that nobody referred |
| Waitlist.RowsAreForEver | api/webapp.py:1804-1847 | rows are only ever added at the end |
| Waitlist.RepeatChangesNothing | api/webapp.py:1804-1847 | anything a known email sends again is refused or answered with its own row, and no row changes |
| Waitlist.ReserveThenRepeat | api/webapp.py:1804-1847 | a request answered with a row is answered with that row ever after, whatever comes in between |
| Waitlist.CreditIffCodeKnown | api/webapp.py:1818-1829 | a new row is credited to the owner of the code it names, exactly then |
| Waitlist.CreditIsConserved | bot/services/waitlist_service.py:160-164 | the referral counts of all rows add up to the number of referred rows |
| Waitlist.AvailabilityIsHonest | api/webapp.py:1734-1758 | the availability check predicts the reservation of a new email, unless it runs out of codes |
| Manifest.JudgeInstance | scripts/validate_railway_services.py:76-188 | the loop body leaves errors, seen pairs and serviceIds as specified, or raises |
| Manifest.ValidateManifest | scripts/validate_railway_services.py:59-190 | the errors, in order, or the uncaught exception |
| ManifestPolicy.OwnClean | scripts/validate_railway_services.py:102-188 | the checks of one instance add no error and do not raise exactly when its policy holds |
| ManifestPolicy.VisitedClean | scripts/validate_railway_services.py:73-100 | the loop is free of errors exactly when all instances are proper and compatible pair by pair, and what it remembers says so |
| ManifestPolicy.NoErrorsIffPolicy | scripts/validate_railway_services.py:59-190 | no errors exactly when the policy holds, with distinct (name, environment) pairs and one serviceId for each name |
| ManifestPolicy.OrderDoesNotMatter | scripts/validate_railway_services.py:73-100 | listing the same instances in another order gives the same verdict |
| ManifestTerms.RaisesIff | scripts/validate_railway_services.py:73-188 | the validator raises exactly when some named instance makes it: an unhashable lifecycle, kind or source type, a configuration file that is no readable file, or parts of the wrong shape; errors before it do not matter |
| ManifestTerms.SameIff | scripts/validate_railway_services.py:119-186 | values are compared as Python compares them: booleans and numbers by value, everything else part by part |
| ManifestTerms.FilledIff | scripts/validate_railway_services.py:91-93 | the required names are texts of one character at least |
| ManifestTerms.AllRootedIff | scripts/validate_railway_services.py:122-126 | watch patterns are in order when they are a list of texts that begin with a slash |
| ManifestTerms.ManualIff | scripts/validate_railway_services.py:136-137 | the manual-only patterns are those under their one directory |
| ManifestTerms.RepositoryIff | scripts/validate_railway_services.py:70-71 | a repository name is an owner, a slash and a name |
| ManifestTerms.BelowIff | scripts/validate_railway_services.py:34-35 | a path is looked up without the slashes before it, all of them and nothing else |
| ManifestTerms.RepoPathIs | scripts/validate_railway_services.py:38-41 | a normalised path is the root and the path without the slashes at their ends, those that are not empty, with a slash before each |
| IacTransition.ValidateIacTransition | scripts/validate_railway_services.py:198-328 | passes exactly when the import is required, the file is absent and more than 45 days are left, or the project is managed and its files are complete |
| IacTransition.LiteralsAreQuoted | scripts/validate_railway_services.py:193-195 | nothing is taken for a literal that the text does not quote |
| IacTransition.ListingIsRead | scripts/validate_railway_services.py:193-195 | a file that quotes each name on its own line is read as exactly those names |
| IacTransition.FailureIsForEver | scripts/validate_railway_services.py:198-256 | a manifest that fails on one day fails on every later day |
| IacTransition.ManagedPassesIff | scripts/validate_railway_services.py:258-328 | a managed project passes exactly when its file mentions every production instance by name, the dev file, if declared, every dev instance, and no file is left that only production instances read |
| ManifestScript.ValidateServices | scripts/validate_railway_services.py:331-362 | the script exits with 0 exactly when the manifest is a readable object, the policy holds of it and the gate is open |
| HealthPayload.Walker.Walk | scripts/status.py:380-399 | the walk appends exactly the specified findings to the shared list |
| HealthPayload.SubsystemBreakdown | scripts/status.py:358-406 | the specified list, cut to twelve |
| HealthPayload.DecimalBack | scripts/status.py:391-393 | a list's positions are spelled in decimal, without leading zeros |
| HealthPayload.BreakdownEmptyIff | scripts/status.py:358-406 | empty exactly when `ready` is not false and no route, past descriptive keys and telemetry paths, leads to false or to a text that is no healthy word: cutting never hides a fault |
| HealthPayload.BreakdownIsGenuine | scripts/status.py:401-406 | what is listed comes from such a route, under its dotted path, so never from true, null or a number; `ready` comes first, and fewer than twelve faults are all listed |
| Probing.Probe | scripts/status.py:250-265 | the answer and the number of requests |
| Probing.GoodIffSomeGood | scripts/status.py:250-265 | a good answer is reported exactly when one of the allowed requests gets one |
| Probing.ReportsFirstGood | scripts/status.py:250-265 | and it is the first of them |
| StatusCheck.Gather | scripts/status.py:445-484 | every row afterwards: judged, and rewritten if it was probed |
| StatusCheck.GreenIff | scripts/status.py:197-229 | exactly when a service ends up absent, and when ok; an absent one is reported the same whatever its URL answers |
| StatusCheck.DownIff | scripts/status.py:197-229 | exactly when a service is reported down; the rest is a warning |
| ProbedBody.ReadIffReaches | scripts/status.py:235-247 | the part that is read complains exactly when the text that was sent does and ends within the first 4000 bytes |
| StatusCheck.ExitZeroIffSent | scripts/status.py:232-510 | in terms of the answers as they were sent: exit code 0 exactly when every service is absent, or serves and gets a good answer to one of at most three requests, the first of which sends no complaint that ends within 4000 bytes unless the deploy is fresh |
| StatusCheck.ComplaintUnseenIff | scripts/status.py:232-484 | a serving, probed service that is not fresh and sends a complaint is reported as ok exactly when the text it sends ends behind the first 4000 bytes |
| StatusCheck.LongComplaintPasses | scripts/status.py:232-510 | such a body, for which the command exits with 0 |
| UptimeProbe.MissingIff | scripts/uptime_probe.py:90-100 | no marker is missing exactly when the body contains them all |
| UptimeProbe.MismatchShows | scripts/uptime_probe.py:95-99 | of the missing markers the first three are shown, and whether there are more |
| UptimeProbe.Check | scripts/uptime_probe.py:103-150 | the first check that is not degraded decides the result, without one the last is reported, and no request follows the deciding one |
| UptimeProbe.RequestsFollow | scripts/uptime_probe.py:107-108 | each attempt's requests follow those of the one before, up to a good answer or three |
| UptimeProbe.RequestsAreBounded | scripts/uptime_probe.py:107-108 | at most three requests for each check |
| UptimeProbe.ReadingIff | scripts/uptime_probe.py:108-137 | what an answer counts as, in the endpoint's own terms |
| UptimeProbe.HealthyIffSent | scripts/uptime_probe.py:90-137 | in terms of the answer as it was sent: healthy exactly when it is good, every marker stands within its first 4000 bytes, and a deep endpoint's complaint does not end within them |
| UptimeProbe.CheckMeans | scripts/uptime_probe.py:103-150 | on the endpoint's own answers: up but degraded exactly when every attempt was degraded, well exactly when some attempt is healthy and all before it degraded only, a failure carries a stale list exactly when the first attempt was degraded, and a broken contract is reported exactly when the first attempt that is not degraded shows one |
| UptimeProbe.ProbeAll | scripts/uptime_probe.py:252-258 | the monitor is all green exactly when every endpoint recovers on its own trace of answers |
| Router.UnderIffSegments | cloudflare/suwappu-router.worker.js:71-76 | a path is under a prefix exactly when the prefix's segments begin the path's segments |
| Router.ByLongestUnique | cloudflare/suwappu-router.worker.js:70-76 | longest-prefix routing picks one origin for each path |
| Router.OrderIsLongestIff | cloudflare/suwappu-router.worker.js:71-77 | for any two tables, ordered matching is longest-prefix matching on every path exactly when no entry of the second is shadowed by the first |
| Router.RoutesByLongestPrefix | cloudflare/suwappu-router.worker.js:38-77 | the worker's own tables route every path by its longest listed prefix |

## Left out

- Python's recursion limit: deeply nested documents and payloads are read to any depth.
- White space and lower-casing are those of the characters listed in `Text`; lower-casing is that of ASCII letters.
- The schema file's header wording: it is any text of whole lines without `@`.
- SchemaRoundTrip.RoundTripExactly: types with a line break of any kind are excluded, `WhatIsTold` and `ToldIs` treat them; defaults may hold anything.
- SchemaRoundTrip.WhatIsTold: a list in which one field's type holds a line break and another's default leaves a tag line open; what is read then depends on the order, as `ReadIsAdopted` states it.
- Base64: of texts that no encoder produces nothing is proved; what the lenient decoder makes of them is modelled.
- Challenges: the stored key is the challenge's bytes; the memory tier that takes over without Redis is not modelled.
- Quotes: prices, amounts and chains beyond the wallet family, and the fact that the cache belongs to one process.
- Heartbeat.SummaryAlwaysIff: takes the clock, and with it the stamp, to move on between two beats of a source; with equal times a lost record can go unnoticed.
- Heartbeats: the memory tier's own eviction is any loss of a key.
- SQL `LIKE` is taken as case-sensitive, and the filter of the backup query as the negation of `_is_aws_wrapped`.
- A negative `--limit`, which the database refuses.
- Rows lost or changed by other programs between two runs of a migration.
- Crashes inside one commit: a commit takes place wholly or not at all.
- Follows: races between requests, the checks behind automatic copying, the Mini App's own statistics table, and the mobile follow, which always fails because it names columns that do not exist.
- Waitlist: seeds, IP hashes, attribution, rate limits, the confirmation mail and the ranking; races between requests.
- Manifest: the wording of messages, NaN in JSON numbers, and path spellings such as `..` or doubled slashes.
- ManifestPolicy.OwnClean: a single instance's policy lists the checks' conditions one by one, so what it adds is that no exception is taken for success.
- Status: the control plane's JSON, the log scan, the choice of URLs and the rendering.
- Status and uptime: which texts are JSON; the parser is a parameter. Bodies are bytes: their decoding, with its replacement characters, is left out.
- Uptime: sleeping, alerts and the heartbeat request.
- Cryptography, pricing, swap routing, order execution and all other handlers of the API and the bot.
