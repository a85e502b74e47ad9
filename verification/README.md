# server-cli tenant registry and docker lifecycle, in Dafny

This project models the core of the `wb` command-line tool. The tool manages a
fleet of FASTR analytics tenants ("servers") on one host. Each tenant is a
record in a JSON registry. It has an id, a label, a port, a server version, an
optional admin version, three feature flags, an optional instance directory
and optional tags. Each tenant runs as a small group of docker containers:
the application, its `-postgres` database and, for old versions, an `-admin`
container, all on a network named after the tenant.

The model covers four parts of the tool:

- **The registry.** The `Server` record and its validation rules (`Types`,
  `Validation`). Port allocation (`PortUtils`). The store operations: read,
  get, add, update, remove, tag queries and tag edits, each keeping the
  registry sorted by id (`ServerStore`, `IdOrder`).
- **Target resolution.** The target syntax `all`, `@tag`, `server=VERSION`, a
  literal id or a bare tag, resolved to a de-duplicated id list
  (`TagResolver`). The nginx site-file port reader (`NginxParser`).
- **The docker lifecycle.** The argument vectors of every docker command
  (`Docker`). The pre-start checks, the start and stop sequences of one tenant
  and the image naming (`Containers`, `Images`). The batch commands `run`,
  `stop`, `restart` and `pull` (`Lifecycle`).
- **The config commands.** `add` (`ConfigAdd`). The option handling of
  `update` (`ConfigOptions`) and the update itself (`ConfigUpdate`). `tag` and
  `untag` (`ConfigTag`). `remove` (`ConfigRemove`).

Everything is a pure function. The registry is a `seq<Server>`. A command
returns the registry it leaves behind together with its error, if any. The
docker side returns a `Plan`: the list of steps it would take (docker
invocations, `chmod`, pauses, warnings) and the error it would throw. Facts
about the host are an input record: file contents, the output of
`certbot certificates`, which `chmod`s are refused and which `docker run`s
fail.

JavaScript truthiness is written out. An empty `adminVersion` counts as no
admin. An empty `instanceDir` falls back to the id. A flag is on only when it
is `true`. `Partial<Server>` is modelled with `Option<Option<T>>` for the
optional members, so an `update` that sets `adminVersion` to `undefined`
really clears it, as the object spread does.

## Model

| member | source | states |
|---|---|---|
| Types.DirName | src/core/types.ts:1-12 | The directory of a tenant is its instance directory when that is non-empty, and its id otherwise. |
| Types.Ids | src/core/types.ts:1-12 | The id list has one entry per record, in registry order. |
| Validation.MatchesIdPattern | src/core/validation.ts:37-39 | An id passes the id rule exactly when it is non-empty and every character is a lower-case letter, a digit or a dash. |
| Validation.RulesComplete | src/core/validation.ts:34-54 | The four rules checked are all the rules there are. |
| Validation.Failed | src/core/validation.ts:34-54 | The errors are exactly the listed rules that fail, kept in the order the rules are checked. |
| Validation.FailingRules | src/core/validation.ts:37-51 | A rule's check fires exactly when the record breaks that rule. |
| Validation.RuleFails | src/core/validation.ts:37-51 | The computed check of each rule agrees with its declarative meaning. |
| Validation.ValidateServer | src/core/validation.ts:34-54 | The result is valid iff it has no errors iff the record is well formed; its errors are exactly the rules the record breaks, in the order id, label, version, port. |
| Validation.SoleViolation | src/core/validation.ts:34-54 | The error list is ordered by rule rank, so an error list whose every member is one error is that single error. |
| Validation.OnlyViolation | src/core/validation.ts:34-54 | A record that breaks one rule only gets exactly that one error. |
| Validation.SingleFieldBreaks | src/core/validation.ts:37-51 | Starting from a well-formed record, breaking one field (an empty or upper-case id, a blank label, an empty version, port 999) gives exactly that field's error. |
| Validation.PortBounds | src/core/validation.ts:49-51 | Ports 1000 and 65535 are accepted; 0, 999 and 65536 are rejected. |
| Validation.CheckIdConflict | src/core/validation.ts:78-84 | A conflict is reported iff the id is taken and is not the excluded id; the conflict is the first record with that id. |
| PortUtils.ConsideredPortsSpec | src/core/port-utils.ts:3-14 | The ports considered are exactly those of records other than the excluded one whose port is at least 3000. |
| PortUtils.MaxOf | src/core/port-utils.ts:3-14 | The maximum is one of the ports and no port exceeds it. |
| PortUtils.AllocatePort | src/core/port-utils.ts:3-14 | The allocated port is at least 3000 and above every considered port; it is either 3000 or one more than a considered port, and it is 3000 when no considered port reaches 3000. |
| PortUtils.AllocatedPostgresPortFresh | src/core/port-utils.ts:3-18 | The database port of a newly allocated port differs from that of every considered tenant. |
| PortUtils.LowPortIgnored | src/core/port-utils.ts:3-14 | A record with a port below 3000 does not influence allocation. |
| PortUtils.ExcludedIgnored | src/core/port-utils.ts:3-14 | Excluding an id allocates as if its records were absent from the registry. |
| PortUtils.AllocateExamples | src/core/port-utils.ts:3-18 | Concrete allocations: 3000 on an empty registry, one past the maximum, 3000 when every port is low, and the excluded id's port skipped. |
| PortUtils.PostgresPortInRange | src/core/port-utils.ts:16-18 | For a tenant port that passes the port rule, the database port (port plus 10000) is at most 65535 iff the tenant port is at most 55535. |
| IdOrder.SortById | src/core/server-store.ts:72-73 | The sort returns a permutation of the registry that is ordered by id. |
| IdOrder.SortKeepsSorted | src/core/server-store.ts:72-73 | Sorting a sorted registry changes nothing. |
| IdOrder.SortIdempotent | src/core/server-store.ts:72-73 | Sorting twice is sorting once. |
| IdOrder.SortKeepsUniqueIds | src/core/server-store.ts:72-73 | Sorting keeps ids unique. |
| IdOrder.IdLeqTotal | src/core/server-store.ts:72-73 | The id order is total. |
| IdOrder.IdLeqTransitive | src/core/server-store.ts:72-73 | The id order is transitive. |
| IdOrder.IdLeqAntisymmetric | src/core/server-store.ts:72-73 | The id order is antisymmetric. |
| ServerStore.MergeNothing | src/core/server-store.ts:85 | Merging no changes leaves the record as it is. |
| ServerStore.MergeThen | src/core/server-store.ts:85 | Two merges in a row are one merge of the combined changes, and merging the same changes twice is merging them once. |
| ServerStore.FindIndex | src/core/server-store.ts:79-83 | The index is found iff the id is present; it is the first position holding that id. |
| ServerStore.Get | src/core/server-store.ts:53-56 | A record is returned iff the id is present; it is the first record with that id. |
| ServerStore.GetIsConflictCheck | src/core/server-store.ts:53-56 | Looking up an id is the conflict check with nothing excluded. |
| ServerStore.Add | src/core/server-store.ts:58-75 | An invalid record is refused with its validation errors, and a taken id with AlreadyExists. Otherwise the result is sorted and holds the old records plus the new one. |
| ServerStore.AddThenGet | src/core/server-store.ts:58-75 | After a successful add, looking up the new id yields the new record, and unique ids stay unique. |
| ServerStore.Update | src/core/server-store.ts:77-95 | A missing id gives NotFound. A merged record that breaks a rule fails with exactly the errors validation reports for it. The update succeeds iff the id is present and the merge is well formed; then the result is a sorted permutation of the registry with the first record of that id replaced by the merge. |
| ServerStore.UpdateKeepsUniqueIds | src/core/server-store.ts:77-95 | An update that keeps the id keeps the ids unique. |
| ServerStore.Remove | src/core/server-store.ts:97-106 | A missing id gives NotFound. Otherwise the record is gone, the registry shrinks, every other record stays and nothing new appears. |
| ServerStore.RemoveKeepsOrder | src/core/server-store.ts:97-106 | With unique ids, removal deletes exactly the position holding the id and keeps the rest in order. |
| ServerStore.UnionTags | src/core/server-store.ts:153-167 | The new tag list holds each of the current and added tags once, in the order each first occurs in the current tags followed by the added ones. |
| ServerStore.UnionKeepsCurrent | src/core/server-store.ts:153-167 | Adding tags keeps the current duplicate-free list as a prefix. |
| ServerStore.AddTags | src/core/server-store.ts:153-167 | A missing id gives NotFound. Otherwise only that record's tags change, to the union, and every other record is untouched. |
| ServerStore.AddTagsIdempotent | src/core/server-store.ts:153-167 | Adding the same tags twice is adding them once. |
| ServerStore.WithoutTags | src/core/server-store.ts:169-183 | The remaining tags are exactly the current tags not named. |
| ServerStore.WithoutTagsOrder | src/core/server-store.ts:169-183 | The filter keeps order and multiplicity: the result for two tag lists joined is the two results joined, and a single tag is kept once iff it is not being removed. |
| ServerStore.RemoveTags | src/core/server-store.ts:169-183 | A missing id gives NotFound. Otherwise only that record's tags change: the stored list is the filtered current list (same order and multiplicity), and an emptied list becomes an absent member. |
| ServerStore.UnionThenWithout | src/core/server-store.ts:153-183 | Removing the tags just added to a duplicate-free list that had none of them restores the list. |
| ServerStore.RemoveTagsUndoesAddTags | src/core/server-store.ts:153-183 | Untagging undoes tagging for a record whose tag list is duplicate-free, not stored as an empty list, and shares no tag with the added ones. |
| ServerStore.GetByTag | src/core/server-store.ts:141-144 | Exactly the records carrying the tag are returned. |
| ServerStore.GetByTags | src/core/server-store.ts:146-151 | Exactly the records carrying at least one of the tags are returned. |
| ServerStore.GetByOneTag | src/core/server-store.ts:141-151 | Querying a single tag through the list query is the single-tag query. |
| ServerStore.GetByVersion | src/core/server-store.ts:185-188 | Exactly the records of that server version are returned. |
| ServerStore.GetByTagOrder | src/core/server-store.ts:141-144 | `getByTag` keeps registry order: the query of two registries joined is the two queries joined, and a single record is kept iff it carries the tag. |
| ServerStore.GetByTagsOrder | src/core/server-store.ts:146-151 | `getByTags` keeps registry order in the same sense, a single record being kept iff it carries one of the tags. |
| ServerStore.GetByVersionOrder | src/core/server-store.ts:185-188 | `getByVersion` keeps registry order in the same sense, a single record being kept iff its version is the one asked for. |
| ServerStore.MutationsKeepSorted | src/core/server-store.ts:58-106 | Add, update and remove keep the registry sorted by id. |
| TagResolver.RenderClassify | src/core/tag-resolver.ts:43-72 | Classifying a target and writing the selector back yields the target. |
| TagResolver.ClassifyRender | src/core/tag-resolver.ts:43-72 | Writing an expressible selector and classifying it yields the selector. |
| TagResolver.SelectIdsMeaning | src/core/tag-resolver.ts:43-72 | One target resolves iff it matches something: `all` always, `@tag` when some record carries the tag (for a bare `@`, the empty tag), `server=<version>` when some record has exactly that version, a literal id when present, else the tag of that name. The ids it picks are exactly the matching records' ids. |
| TagResolver.FoundMeaning | src/core/tag-resolver.ts:43-72 | The records found for a target are non-empty iff it resolves; their ids are exactly the ids it picks. |
| TagResolver.Collect | src/core/tag-resolver.ts:36-74 | Collection fails iff some target does not resolve, and then it fails with the error of the first such target. |
| TagResolver.CollectIds | src/core/tag-resolver.ts:36-74 | A successful collection holds exactly the ids some target picks. |
| TagResolver.CollectConcat | src/core/tag-resolver.ts:36-74 | A successful collection is each target's own selection, concatenated in target order. |
| Seqs.DedupFirstSeen | src/core/tag-resolver.ts:75 | `[...new Set(ids)]` keeps each id once, at its first occurrence, in order of first occurrence. |
| Seqs.FirstSeenIsDedup | src/core/tag-resolver.ts:75 | That first-seen order fixes the list: any repeat-free list of the same elements in first-occurrence order is the deduplication. |
| TagResolver.ResolveTargets | src/core/tag-resolver.ts:36-76 | Resolution succeeds iff every target resolves. The result has no duplicates, names only present ids, and holds exactly the ids some target picks, in the order each is first met when the targets' selections are read target by target. |
| TagResolver.ResolveAll | src/core/tag-resolver.ts:43-45 | `all` resolves to every id of a registry with unique ids, in order. |
| TagResolver.ResolveRepeated | src/core/tag-resolver.ts:75 | A repeated id and a tag naming the same tenant resolve to that id once. |
| NginxParser.SpaceRun | src/utils/nginx-parser.ts:4 | The run of whitespace is maximal. |
| NginxParser.DigitRun | src/utils/nginx-parser.ts:4 | The run of digits is maximal. |
| NginxParser.MatchAtSound | src/utils/nginx-parser.ts:4-5 | A match at a position is an instance of the pattern `proxy_pass\s+http://localhost:(\d+)` whose digits are the value. |
| NginxParser.MatchAtComplete | src/utils/nginx-parser.ts:4-5 | Every instance of the pattern at a position is found there with its value. |
| NginxParser.SearchIndex | src/utils/nginx-parser.ts:4-5 | The search returns the leftmost position, at or after the start, where the pattern occurs, and fails only when it occurs nowhere there. |
| NginxParser.ParsePortFinds | src/utils/nginx-parser.ts:4-6 | A port is found iff the pattern occurs somewhere in the file. |
| NginxParser.ParsePortLeftmost | src/utils/nginx-parser.ts:4-6 | The port found is the value of the leftmost occurrence of the pattern. |
| NginxParser.ExtractPort | src/utils/nginx-parser.ts:1-9 | An unreadable file gives no port; a readable one gives what the pattern finds; nothing is thrown. |
| NginxParser.SiteFileRoundTrip | src/utils/nginx-parser.ts:1-9 | The port written into a generated site file is the port read back. |
| NginxParser.FirstMatchIsDirective | src/utils/nginx-parser.ts:4-5 | In a file whose first directive is the proxy line, the port of that line is returned. |
| NginxParser.SpaceRequired | src/utils/nginx-parser.ts:4 | A directive not followed by whitespace gives no port. |
| Strings.TrimEmptyIffBlank | src/commands/config/add.ts:11-17 | Trimming leaves nothing iff the text is blank, and a non-empty trim neither starts nor ends with whitespace. |
| Strings.ToLower | src/commands/config/mod.ts:23 | Lower-casing keeps the length and maps each character on its own. |
| Strings.NatToDecimal | src/commands/docker/stop-container.ts:4 | The decimal rendering is digits only, has no leading zero and reads back as the number. |
| Strings.JoinSplit | src/commands/config/add.ts:19-23 | Joining the pieces of a split with the separator gives the text back. |
| Strings.SplitJoin | src/commands/config/add.ts:19-23 | Splitting a join of separator-free pieces gives the pieces back. |
| Images.ToNumber | src/commands/docker/run-container.ts:307-312 | A digit string converts to its decimal value. |
| Images.FamilyCutover | src/commands/docker/run-container.ts:307-312 | A version `major.minor...` uses the new image family iff major > 1, or major is 1 and minor is at least 6. |
| Images.MissingMinor | src/commands/docker/run-container.ts:307-312 | A version without a minor part is in the new family iff its major exceeds 1. |
| Images.LegacyExample | src/commands/docker/run-container.ts:307-312 | 1.5.9 is in the legacy family. |
| Images.CutoverExample | src/commands/docker/run-container.ts:307-312 | 1.6.0 is in the new family. |
| Docker.OptionArgs | src/commands/docker/run-container.ts:250-305 | The options render as consecutive flag/value pairs: pair `i` is option `i`'s `-p host:container`, `-v source:target` or `-e NAME=value`, in option order. |
| Docker.ParseRendered | src/commands/docker/stop-container.ts:1-13 | Every command other than `run` reads back from its argument vector. |
| Docker.StopArgsShape | src/commands/docker/stop-container.ts:1-13 | `stop` starts with `stop`, ends with the name, and carries `-t` and the timeout exactly when one is given. |
| Docker.RunArgsShape | src/commands/docker/run-container.ts:250-305 | `run` has its mode flag, name and network at fixed places and the image last. |
| Docker.Then | src/commands/docker/run-container.ts:124-318 | Sequencing stops at the first failure; otherwise it concatenates the steps and keeps the second failure. |
| Docker.ThenAssociative | src/commands/docker/run-container.ts:124-318 | Sequencing is associative. |
| Docker.Started | src/commands/docker/run-container.ts:196-305 | The started set is exactly the names of the `docker run` steps. |
| Docker.Stopped | src/commands/docker/stop-container.ts:1-13 | The stopped set is exactly the names of the `docker stop` steps. |
| Docker.Pulled | src/commands/docker/pull.ts:12-60 | The pulled set is exactly the images of the `docker pull` steps. |
| Docker.RunImages | src/commands/docker/run-container.ts:196-305 | The image set is exactly the images of the `docker run` steps. |
| Containers.Checks | src/commands/docker/run-container.ts:21-119 | The checks fail iff the site file has a port that differs from the tenant's; they then take no steps. Otherwise they run certbot and only warn. |
| Containers.ValidateServerSetup | src/commands/docker/run-container.ts:12-122 | The setup check fails exactly on a port mismatch read from the site file; otherwise its steps are the certbot query and warnings. |
| Containers.ChecksWarnings | src/commands/docker/run-container.ts:42-119 | Each warning (unreadable port, no certificate, site not enabled) is given exactly when its condition holds. |
| Containers.GeneratedSiteFileAccepted | src/commands/docker/run-container.ts:21-67 | A site file written for the tenant's own port passes the check with no port warning. |
| Containers.RunAdminContainer | src/commands/docker/run-admin-container.ts:3-45 | Without an admin version nothing happens. Otherwise the old admin container is removed and a new one is run from the admin image; the start fails iff that `docker run` fails. |
| Containers.Lookup | src/commands/docker/run-container.ts:269-303 | A variable's value is absent iff the variable is not passed; a present value is one that is passed. |
| Containers.EnvOptions | src/commands/docker/run-container.ts:269-303 | Every variable becomes one `-e` option, in order. |
| Containers.LookupDistinct | src/commands/docker/run-container.ts:269-303 | In an environment without repeats, the value looked up is the one passed. |
| Containers.AppEnvDistinct | src/commands/docker/run-container.ts:269-303 | The application container gets each variable once. |
| Containers.AppEnvAdmin | src/commands/docker/run-container.ts:269-303 | The admin host and admin version variables are passed iff there is an admin version, with the tenant's values. |
| Containers.AppEnvFlags | src/commands/docker/run-container.ts:269-303 | The language, calendar and open-access variables are passed iff their flags are on, with `fr`, `ethiopian` and `1`. |
| Containers.AppEnvCore | src/commands/docker/run-container.ts:269-303 | The version (or `latest`), the database folder, the redirect URL and the database host carry the tenant's values. |
| Containers.RunContainerOutcome | src/commands/docker/run-container.ts:124-318 | A start fails exactly when the version is missing, the setup check fails, the instance directory or one of its subdirectories is missing, the sandbox cannot be made writable or the admin container fails. A success is always preceded by the checks. |
| Containers.RunContainerChecksFirst | src/commands/docker/run-container.ts:124-240 | No docker step precedes the checks; only an admin failure leaves docker steps behind. |
| Containers.LaunchSteps | src/commands/docker/run-container.ts:166-305 | A successful launch is chmod, network create, database run, the admin steps, removal of the old application container and the application run. |
| Containers.LaunchStarts | src/commands/docker/run-container.ts:196-305 | A successful launch starts the database, the admin container when there is one, and the application. |
| Containers.LaunchImages | src/commands/docker/run-container.ts:196-305 | A successful launch runs the database image, the image the tenant's version selects and, with an admin version, the admin image; no other image. |
| Containers.RunContainerSplit | src/commands/docker/run-container.ts:124-318 | A successful start has a version, passed the checks, and is the checks' steps followed by a successful launch. |
| Containers.RunContainerStartsTenant | src/commands/docker/run-container.ts:124-318 | A successful start runs exactly the tenant's containers. |
| Containers.RunContainerEndsWithApp | src/commands/docker/run-container.ts:250-305 | The application container is started last. |
| Containers.RunContainerTouchesOnlyTenant | src/commands/docker/run-container.ts:124-318 | Every docker step of a start names only the tenant's containers and network. |
| Containers.RunContainerStopsNothing | src/commands/docker/run-container.ts:124-318 | A start never stops a container. |
| Containers.RunContainerAdminFailure | src/commands/docker/run-container.ts:229-231 | A start failing on the admin container has run the checks and the launch up to that point. |
| Containers.RunContainerFailureKeepsAppDown | src/commands/docker/run-container.ts:124-318 | A failed start never starts the application container. |
| Containers.StopTenantStopsAll | src/commands/docker/stop.ts:27-32 | Stopping a tenant stops exactly the containers a start brings up: the application, the database and, with an admin version, the admin container. |
| Containers.StopTenantTouchesOnlyTenant | src/commands/docker/stop.ts:27-32 | Stopping a tenant names no container outside its own. |
| Containers.StopTenantOrder | src/commands/docker/stop.ts:27-32 | Stopping starts nothing; the application goes first and the database last, with a 30-second timeout. |
| Containers.RunStopSymmetry | src/commands/docker/restart.ts:23-47 | What a successful start brings up is exactly what the stop sequence takes down. |
| Containers.RunContainerImages | src/commands/docker/run-container.ts:196-312 | A successful start runs the database image, the image of the tenant's version and, with an admin version, the admin image. |
| Lifecycle.StartOne | src/commands/docker/run.ts:20-28 | Starting one id fails iff its record exists and its start throws. |
| Lifecycle.StartAll | src/commands/docker/run.ts:20-32 | A batch start fails iff some id's start throws, and the error is a start failure. |
| Lifecycle.StartAllFirstFailure | src/commands/docker/run.ts:20-32 | A failed batch names the first id, in order, whose start throws, with its error. |
| Lifecycle.PullSteps | src/commands/docker/pull.ts:12-19 | There is one pull per image, in order. |
| Lifecycle.ServerImages | src/commands/docker/pull.ts:32-35 | The server images are exactly the images of the records' non-empty versions. |
| Lifecycle.AdminImages | src/commands/docker/pull.ts:36-41 | The admin images are exactly the images of the records' admin versions. |
| Lifecycle.Tenants | src/commands/docker/stop.ts:21-33 | The tenant containers are exactly those of records the ids name. |
| Lifecycle.StopAllStops | src/commands/docker/stop.ts:21-44 | A batch stop stops exactly the named tenants' containers and starts nothing. |
| Lifecycle.StarterWellBehaved | src/commands/docker/run-container.ts:124-318 | The tenant start stops nothing, and a successful one starts exactly the tenant's containers. |
| Lifecycle.StartAllStarts | src/commands/docker/run.ts:20-28 | A successful batch start brings up exactly the named tenants' containers and stops nothing. |
| Lifecycle.PhasesInOrder | src/commands/docker/restart.ts:23-47 | A phase that only stops, followed by one that only starts, stops before it starts. |
| Lifecycle.PresentIdsReportNothing | src/commands/docker/run.ts:20-25 | For resolved ids the not-found branch never fires. |
| Lifecycle.HandleRunOutcome | src/commands/docker/run.ts:7-33 | `run` fails for no targets, an unresolved target or a start that throws. A success starts exactly the resolved tenants. |
| Lifecycle.StopAllRemovesNetworks | src/commands/docker/stop.ts:34-43 | A batch stop removes the network of every named tenant. |
| Lifecycle.HandleStopOutcome | src/commands/docker/stop.ts:8-49 | `stop` fails only for no targets or an unresolved target. Otherwise it stops exactly the resolved tenants, starts nothing and removes their networks. |
| Lifecycle.HandleRestartOutcome | src/commands/docker/restart.ts:9-52 | `restart` stops every resolved tenant before it starts any, pausing one second between. A success restarts exactly what it stopped. |
| Lifecycle.RestartBatch | src/commands/docker/restart.ts:9-52 | For any start that brings up exactly a tenant's containers and stops nothing, the stop batch, the one-second pause and the start batch put every stop before every start, and a successful run starts exactly the containers it stopped. |
| Lifecycle.HandlePullContents | src/commands/docker/pull.ts:5-61 | `pull` fetches exactly the base images, the image of every version and the image of every admin version. |
| Lifecycle.ServerImageNotAdmin | src/commands/docker/pull.ts:25-41 | A server image never coincides with an admin image. |
| Lifecycle.HandlePullOnce | src/commands/docker/pull.ts:22-60 | After the base images, no image is pulled twice. |
| Lifecycle.PullCoversRun | src/commands/docker/pull.ts:5-61 | With the database image among the base images, `pull` fetches every image a successful start of a registered tenant runs. |
| Lifecycle.PullCoversTenant | src/commands/docker/pull.ts:5-61 | With the database image among the base images, `pull` fetches every image a registered tenant with a version runs from. |
| ConfigAdd.DeriveLabel | src/commands/config/add.ts:19-23 | The label keeps the id's length; dashes become spaces, and a character that starts a word is upper-cased. |
| ConfigAdd.TitleCase | src/commands/config/add.ts:19-23 | Title case upper-cases exactly the characters that start a word. |
| ConfigAdd.TitleCaseOfWords | src/commands/config/add.ts:20-23 | Splitting on spaces, capitalizing each word and joining again is title case. |
| ConfigAdd.LabelOfTwoWords | src/commands/config/add.ts:19-23 | `south-sudan` becomes `South Sudan`: two dash-joined words give both words capitalized. |
| ConfigAdd.DashOnlyIdRejected | src/commands/config/add.ts:19-23 | An id made only of dashes passes the id rule but derives a blank label. |
| ConfigAdd.Versions | src/commands/config/add.ts:31-32 | The versions listed are exactly the non-empty versions in the registry. |
| ConfigAdd.LatestVersion | src/commands/config/add.ts:31-35 | The chosen version is never empty. It is the first of the sorted versions when that exists, and otherwise `1.0.0`. |
| ConfigAdd.HandleAddOutcome | src/commands/config/add.ts:11-58 | A blank id is refused, then a taken trimmed id or a rule break. Otherwise the new record sits under the trimmed id with the derived label, a port above every registered port, no admin and every flag off. |
| ConfigOptions.ParseBoolean | src/commands/config/mod.ts:22-27 | A value parses iff its lower-case form is one of `true`, `1`, `yes`, `false`, `0`, `no`, and is true iff it is one of the first three. |
| ConfigOptions.ParseBooleanIgnoresCase | src/commands/config/mod.ts:22-27 | A value parses as its lower-case form does. |
| ConfigOptions.ParseBooleanWords | src/commands/config/mod.ts:22-27 | `true`/`false` and `YES`/`No` parse to the booleans they name. |
| ConfigOptions.UnknownOptions | src/commands/config/mod.ts:72-74 | The unknown options are exactly the given names not in the known set. |
| ConfigOptions.ParseUpdateOptionsMeaning | src/commands/config/mod.ts:70-92 | Parsing fails exactly on an unknown name or an unparsable flag. On success an option is set iff it was given a non-empty value, each of the three flags carries the value the boolean parser gives for its text, each text option (label, server, admin, instance directory) is the given text unchanged, and the admin option is never `""`. |
| ConfigUpdate.ToChanges | src/commands/config/update.ts:31-70 | The changes never touch the id, the port or the tags. |
| ConfigUpdate.ToChangesMeaning | src/commands/config/update.ts:31-70 | Field by field, the merged record takes each given option and keeps the rest. An admin of `""` or `none` clears the admin version; any other admin sets it. |
| ConfigUpdate.NoOptionsNoChanges | src/commands/config/update.ts:73-76 | There is nothing to change iff no option is given, and then the merge is the identity. |
| ConfigUpdate.UpdateOne | src/commands/config/update.ts:16-87 | The report is not-found for a missing id, nothing-to-change with no options, a rejection carrying validation errors when the merge breaks a rule, and updated otherwise. When not updated, the registry is unchanged. |
| ConfigUpdate.UpdateAll | src/commands/config/update.ts:107-114 | There is one report per id, in order. |
| ConfigUpdate.UpdateAllKeepsIds | src/commands/config/update.ts:107-114 | The update loop keeps the ids unique and present exactly as before. |
| ConfigUpdate.UpdateAllLeavesOthers | src/commands/config/update.ts:107-114 | Records the loop does not name are untouched. |
| ConfigUpdate.UpdateAllReports | src/commands/config/update.ts:107-114 | Each report describes its id against the original registry. |
| ConfigUpdate.UpdateAllLookups | src/commands/config/update.ts:107-114 | After the loop each id holds the merged record when the merge is valid, and its old record otherwise. |
| ConfigUpdate.HandleUpdateOutcome | src/commands/config/update.ts:89-115 | `update` stops for no targets, no options or an unresolved target. Otherwise every resolved tenant is reported against the original registry, and each holds the merge when valid and its old record otherwise; ids stay unique and present. |
| ConfigTag.ApplyTags | src/commands/config/tag.ts:21-27 | Only a store error stops the loop; a finished loop keeps the registry's size. |
| ConfigTag.TagCommand | src/commands/config/mod.ts:128-148 | A missing or empty first word is refused before anything else. |
| ConfigTag.TagStepEffect | src/core/server-store.ts:153-183 | One write to a present id succeeds and changes only that tenant's tags, as tagging or untagging should. |
| ConfigTag.ApplyTagsEffect | src/commands/config/tag.ts:21-27 | Over present ids the loop never fails. Every named tenant gains (or loses) the tags and every other record stays. |
| ConfigTag.HandleTagOutcome | src/commands/config/tag.ts:5-60 | No tags and an unresolved target are the only errors, and they leave the registry. Otherwise exactly the resolved tenants change, as tagging or untagging should. |
| ConfigTag.ResolvedIffPicked | src/core/tag-resolver.ts:36-76 | A tenant is changed iff the target picks it. |
| ConfigRemove.RemoveAll | src/commands/config/remove.ts:32-35 | The removal loop only fails on a store error and never grows the registry. |
| ConfigRemove.RemoveIsFilter | src/core/server-store.ts:97-106 | Removing a unique id filters its record out. |
| ConfigRemove.RemoveAllEffect | src/commands/config/remove.ts:32-35 | Removing distinct present ids keeps exactly the records not named, in order. |
| ConfigRemove.HandleRemoveOutcome | src/commands/config/remove.ts:5-43 | `remove` refuses an empty target and an unresolved target, and is cancelled without `--force` or a `y`/`yes` answer; these leave the registry. Otherwise exactly the picked tenants are gone. |

## Left out

- Id ordering: `localeCompare` is replaced by code-point order (the same as code-unit order for valid ids, which are limited to `[a-z0-9-]`). Locale collation is outside the model.
- File I/O: reading and writing the registry file, JSON parsing, the atomic write, backups and restore are not modelled. Each command acts on one registry value, and the store's re-read before every operation is that same value.
- `load-servers.ts`: its JSON parsing is not modelled; `pull` receives the registry directly.
- Ports: ports are integers. A fractional port in the registry file, which the check at src/core/validation.ts:49 accepts, is outside the model; so are the fractional database and allocated ports it would lead to.
- Concurrency: two processes editing the registry at once are not modelled.
- Output: console messages, colors and message texts are not modelled. Errors are data, and only their kind and fields are kept.
- Prompt: the confirmation prompt of `remove` is a parameter (the answer, or none). The registry listing printed before it is left out.
- Images.ToNumber: models `Number()` on a version part for digit strings and the blank string (0), after trimming JavaScript whitespace; everything else is NaN. Signs (`+2`, `-1`), exponents (`1e1`), `Infinity` and `0b`/`0o`/`0x` literals are numbers in JavaScript but NaN here, so a version such as `+2.0.0` is in the new family in the source and in the legacy family in the model.
- Paths: `path.join` is concatenation with `/`; normalisation of `.`, `..` and repeated separators is not modelled.
- Process spawning: a spawn that throws, the stderr text in error messages and exit codes other than success or failure are not modelled. Which `docker run` fails is a fact about the host.
- Host facts: certbot's output, the files on disk and refused `chmod`s are facts about the host.
- The warning printed when `network create` fails for any reason other than an existing network is not modelled; `network create` is a step whose result is ignored.
- `constants.ts` is not part of this model: the instance subdirectories and the base images to pull are parameters.
- `version.ts` is not part of this model: the version sort used by `add` is a parameter.
- Case mapping: upper- and lower-casing cover ASCII letters only.
- Argument parsing: splitting the command line into options is not modelled. The aliases `open_access` and `instance_dir` are accepted as known names, but their values arrive through the dashed names.
- Other commands: `list`, `show`, `validate`, `backup`, `restore`, `prune`, `nginx`, `ssl`, `dirs` and the dispatch of subcommands are not modelled.
- NginxParser.SiteFileRoundTrip: requires a subdomain without `_`. A subdomain containing the text `proxy_pass` would put an earlier match in front of the real directive, so the round trip is stated only for subdomains that cannot contain it.
- ConfigAdd.LatestVersion: the version sort is a parameter, so the contract says only that a sort returning a permutation picks a registered version or `1.0.0`.
