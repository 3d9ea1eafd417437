# Rune core, modelled in Dafny

Rune is a container runtime written in Rust. It has a daemon with a Docker-compatible HTTP API, an OCI image registry, bridge networks, named volumes, a swarm mode, compose files and a language server for Runefiles (its Dockerfile dialect). Next to the daemon sit three WebAssembly builds for the browser: an image builder over an in-memory filesystem, a client with an offline container manager, and a Runefile language server.

This project models the in-memory logic of those pieces and proves what each operation promises. The pieces are the state machines kept in maps and the text parsers. Most `.dfy` files cover one source file each, with a module of the same spirit. Three hold code shared by several source files: `common.dfy` (results, errors and text helpers), `dep_graph.dfy` (the dependency graph behind both compose start orders) and `ordering.dfy` (the byte order and pagination of registry listings).

- **Containers.** `ContainerConfig` holds status, ports, mounts and builders. `ContainerRuntime` holds the transitions of one container. `ContainerLifecycle` is the manager: a map from id to container.
- **Images.** `ImageStore` holds images by id and a tag map. `ImageBuilder` is the Runefile/Dockerfile parser with line continuations and stages.
- **Registry.** `RegistryStorage` is the on-disk layout as path functions, with the files as maps, and includes garbage collection by reachability. `RegistryServer` has the paginated catalog and tag listings and the blob-upload sessions of the OCI Distribution Specification. `RegistryAuth` covers repository-pattern permissions, scopes and tokens. `Ordering` is the `String` order and the pagination built on it.
- **Networks and volumes.** `NetworkConfig` holds IPv4 text and the address allocator. `NetworkBridge` holds bridge networks and the network manager. `Volume` holds named volumes with reference counts.
- **Swarm.** `SwarmConfig`, `SwarmService`, `SwarmTask`, `SwarmNode` and `SwarmCluster` cover configs with an optimistic version check, services with one-step rollback, task and node transitions, join tokens, and lock and unlock.
- **Compose.** `ComposeModel` is the file as data. `ComposeParser` covers merge, validation and `${VAR}` interpolation. `DependencyGraph` is the graph of services. `ComposeOrchestrator` holds the start order and container configurations.
- **Language server.** `LspSyntax` is the daemon-side Runefile checker. `LspWasmParser` is the browser one, with its diagnostics.
- **Daemon API helpers.** `DaemonApi` covers percent-decoding, port, bind and query parsing, durations and path normalisation.
- **Browser builds.** `MemoryFs` is the in-memory filesystem. `BuilderWasmParser` is the browser builder's parser and validator. `WasmCompose` holds start order and validation. `LocalClient` is the offline container manager.
- **Namespaces.** `Namespace` holds the Linux namespace kinds, their clone flags and their `/proc` paths.
- **Shared vocabulary.** `Common` holds the error kinds, `Result`/`Option` and string helpers.

Code that updates state in place is modelled as classes whose fields are the source's maps and counters. Their methods carry `modifies` clauses and state the whole new state. Each method is specified by pure functions, which lemmas relate: inverses, preserved invariants, and reference definitions. Parsers are modelled as functions. Where the source parses in a loop, a method with loop invariants is proved equal to the function.

Hashing, password hashing, uuids, random numbers and the clock are parameters of the operations that use them. JSON and YAML decoding are parameters too: either a decoded value or a decoder function.

## Model

| member | source | states |
|---|---|---|
| BuilderWasmParser.ParseInstruction | builder-wasm/src/parser/mod.rs:173-204 | ONBUILD is an unknown instruction here; every other keyword is dispatched as by the daemon's builder; errors carry the line number |
| BuilderWasmParser.ParseContentText | builder-wasm/src/parser/mod.rs:111-170 | the line pass computes its specification; a parsed file has at least one stage |
| BuilderWasmParser.LogicalNumbered | builder-wasm/src/parser/mod.rs:115-136 | every logical line is numbered 1-based after the physical line that ends it |
| BuilderWasmParser.ParseLinesAt | builder-wasm/src/parser/mod.rs:115-136 | the k-th parse result is that of the k-th logical line, at its number |
| BuilderWasmParser.AssembleErrorNamed | builder-wasm/src/parser/mod.rs:136-167 | a failing stage pass reports a parse error, and one on line 0 is only the no-FROM error |
| BuilderWasmParser.ParsedLinesNamed | builder-wasm/src/parser/mod.rs:115-136 | each parsed line has a positive number and its error names it |
| BuilderWasmParser.ErrorTextNamed | builder-wasm/src/parser/mod.rs:155-209 | an error on a numbered line is rendered `Line <n>: …` |
| BuilderWasmParser.ParseErrorNamed | builder-wasm/src/parser/mod.rs:111-170 | every error message names its line, except `No FROM instruction found` |
| BuilderWasmParser.AssembleNonEmpty | builder-wasm/src/parser/mod.rs:160-169 | the stage pass only succeeds with at least one stage |
| BuilderWasmParser.ParsedHasStage | builder-wasm/src/parser/mod.rs:164-169 | a parsed file always has a stage, so the empty-stages check of `validate` never fires |
| BuilderWasmParser.ParseLinesAgree | builder-wasm/src/parser/mod.rs:173-204 | off ONBUILD lines this dispatch parses exactly as the daemon's |
| BuilderWasmParser.ParseAgreesWithDaemon | builder-wasm/src/parser/mod.rs:111-170 | a file without ONBUILD parses as the daemon's builder parses it; only the error text differs |
| BuilderWasmParser.ParseAllFails | builder-wasm/src/parser/mod.rs:136 | one failing line makes the whole parse fail |
| BuilderWasmParser.OnbuildRefused | builder-wasm/src/parser/mod.rs:199-202 | ONBUILD anywhere in the file makes the parse fail |
| BuilderWasmParser.CheckInstruction | builder-wasm/src/parser/mod.rs:47-78 | the checks of one instruction: COPY/ADD without sources or destination are errors, EXPOSE 0 and a WORKDIR starting with neither `/` nor `$` are warnings |
| BuilderWasmParser.CheckInstructions | builder-wasm/src/parser/mod.rs:47-79 | the inner loop collects the checks of a stage's instructions in order |
| BuilderWasmParser.CheckStage | builder-wasm/src/parser/mod.rs:42-80 | a stage's checks: `Stage <i> has empty base image`, then its instructions' |
| BuilderWasmParser.StagesStep | builder-wasm/src/parser/mod.rs:42-80 | one more stage appends exactly its own errors and warnings |
| BuilderWasmParser.CheckStages | builder-wasm/src/parser/mod.rs:42-81 | the outer loop collects every stage's errors and warnings in order |
| BuilderWasmParser.Validate | builder-wasm/src/parser/mod.rs:30-95 | the report equals its specification (a failed parse is its one error) and `valid` holds iff there are no errors |
| BuilderWasmParser.InstructionsErrorsEmpty | builder-wasm/src/parser/mod.rs:47-64 | a stage body has no errors iff every COPY and ADD has sources and a destination |
| BuilderWasmParser.StagesErrorsEmpty | builder-wasm/src/parser/mod.rs:42-81 | the stages have no errors iff every stage has a base image and a sound body |
| BuilderWasmParser.ValidExactly | builder-wasm/src/parser/mod.rs:30-95 | a Runefile is valid iff it parses, every stage names a base image and every COPY/ADD is complete; warnings never invalidate |
| BuilderWasmParser.InstructionsWarningsHas | builder-wasm/src/parser/mod.rs:47-79 | a warning of any instruction is in the stage's warnings |
| BuilderWasmParser.StagesWarningsHas | builder-wasm/src/parser/mod.rs:42-81 | a warning of any instruction of any stage is in the report |
| BuilderWasmParser.InstructionsErrorsHas | builder-wasm/src/parser/mod.rs:47-79 | an error of any instruction is in the stage's errors |
| BuilderWasmParser.StagesErrorsHas | builder-wasm/src/parser/mod.rs:42-81 | an error of any stage is in the report |
| BuilderWasmParser.RelativeWorkdirWarned | builder-wasm/src/parser/mod.rs:71-77 | a relative WORKDIR in any stage is warned about by name |
| BuilderWasmParser.ExposeZeroWarned | builder-wasm/src/parser/mod.rs:66-70 | EXPOSE 0 in any stage is warned about |
| BuilderWasmParser.MissingSourcesReported | builder-wasm/src/parser/mod.rs:49-60 | a COPY/ADD without sources anywhere is an error naming its keyword, and the file is invalid |
| BuilderWasmParser.MissingDestinationReported | builder-wasm/src/parser/mod.rs:49-63 | a COPY/ADD without destination anywhere is an error naming its keyword, and the file is invalid |
| BuilderWasmParser.EmptyBaseReported | builder-wasm/src/parser/mod.rs:43-45 | a stage with an empty base image is reported by index, and the file is invalid |
| ComposeModel.DependsOn | src/compose/orchestrator.rs:305-309 | a service without `depends_on` depends on nothing; otherwise the listed names, or the keys of the map form |
| ComposeOrchestrator.ServiceGraph | src/compose/orchestrator.rs:303-315 | the dependency graph has exactly the services as nodes, each with the dependencies it lists |
| ComposeOrchestrator.TopologicalSort | src/compose/orchestrator.rs:283-321 | on success the service is placed, `visiting` is restored, the order only grows, holds each name once and puts every dependency before its dependent; a failure (name met while still being visited) implies a dependency cycle and is `Circular dependency detected for service: <s>` |
| ComposeOrchestrator.SortDependencies | src/compose/orchestrator.rs:311-313 | sorting each dependency in turn places all of them, keeps the order duplicate-free and dependency-respecting; the first failure implies a cycle |
| ComposeOrchestrator.GetStartOrder | src/compose/orchestrator.rs:270-281 | an order is returned iff the dependency graph has no cycle; it lists every service once, each after everything it depends on |
| ComposeOrchestrator.ServiceImage | src/compose/orchestrator.rs:330-331 | the service's image, or `<project>-<service>:latest` when it has none |
| ComposeOrchestrator.CommandArgs | src/compose/orchestrator.rs:336-341 | a shell-form command becomes `/bin/sh -c <line>`; an exec form is taken as is |
| ComposeOrchestrator.EntrypointArgs | src/compose/orchestrator.rs:344-349 | a shell-form entrypoint is a single word; an exec form is taken as is |
| ComposeOrchestrator.EnvFromItems | src/compose/orchestrator.rs:352-359 | every variable defined comes from some `KEY=VALUE` item's key |
| ComposeOrchestrator.EnvFromItemsLast | src/compose/orchestrator.rs:352-359 | the last item defining a key decides its value; an item without `=` defines nothing |
| ComposeOrchestrator.EnvFromMap | src/compose/orchestrator.rs:360-366 | exactly the map entries that carry a value, with that value |
| ComposeOrchestrator.CollectEnv | src/compose/orchestrator.rs:352-359 | the list environment loop yields the variables of the items, the later item winning |
| ComposeOrchestrator.ServiceToContainerConfig | src/compose/orchestrator.rs:324-401 | a new config named after the container, running the service's image, with command, entrypoint, environment, working directory, user, hostname and privilege taken from the service where set and the defaults otherwise, always labelled with the project and the service |
| ComposeModel.NetworksOf | src/compose/parser.rs:145-150 | a service without `networks` names none; otherwise the listed names, or the keys of the map form |
| ComposeParser.MergeService | src/compose/parser.rs:73-84 | the overlay's image, build and command win when present; every other field of the existing service is kept |
| ComposeParser.MergeServices | src/compose/parser.rs:72-88 | the merged services are exactly those of base and overlay |
| ComposeParser.InsertAll | src/compose/parser.rs:91-108 | inserting every overlay entry yields the union, the overlay winning on shared keys |
| ComposeParser.MergeStep | src/compose/parser.rs:72-88 | merging one more overlay service keeps the map equal to the partial merge |
| ComposeParser.MergeDone | src/compose/parser.rs:72-88 | once every overlay service is visited, the map is the merged services |
| ComposeParser.MergeOne | src/compose/parser.rs:72-88 | one overlay service is merged into the same-named base service or added, keeping the map equal to the partial merge |
| ComposeParser.MergeServiceMaps | src/compose/parser.rs:72-88 | the service loop yields exactly the merged service map |
| ComposeParser.MergeConfigs | src/compose/parser.rs:58-111 | the result is the merge: overlay version and name win when present, services merged or inserted, networks, volumes, secrets and configs joined with the overlay winning |
| ComposeParser.MergeEmpty | src/compose/parser.rs:58-111 | merging an empty overlay changes nothing |
| ComposeParser.MergeIdempotent | src/compose/parser.rs:58-111 | merging a configuration with itself changes nothing |
| ComposeParser.MergeOntoDefault | src/compose/parser.rs:46-55 | the first file merged onto the default configuration comes through unchanged, with version `3.8` when it names none |
| ComposeParser.MergeServiceAssoc | src/compose/parser.rs:73-84 | merging one service over another is associative |
| ComposeParser.MergeServicesAssoc | src/compose/parser.rs:72-88 | merging service maps is associative |
| ComposeParser.MergeAssociative | src/compose/parser.rs:46-111 | merging whole configurations is associative, so a list of files merges the same way however grouped |
| ComposeParser.UnknownDependency | src/compose/parser.rs:128-141 | none iff every dependency is a defined service; otherwise the error names the first that is not |
| ComposeParser.ServiceError | src/compose/parser.rs:119-141 | a service draws an error iff it is invalid; with neither image nor build it is the `must have either 'image' or 'build'` error |
| ComposeParser.NetworkWarnings | src/compose/parser.rs:145-157 | exactly one warning per referenced network that is neither `default` nor defined |
| ComposeParser.VolumeWarnings | src/compose/parser.rs:161-175 | exactly one warning per long-form named-volume mount whose source is not defined |
| ComposeParser.WarningsOfStep | src/compose/parser.rs:117 | visiting one more service appends its warnings |
| ComposeParser.WarningsOfMembers | src/compose/parser.rs:117-178 | a warning is collected iff one of the visited services draws it |
| ComposeParser.Validate | src/compose/parser.rs:114-181 | fails iff some service is invalid, with that service's error; otherwise the warnings are exactly those the services draw, and never an error |
| ComposeParser.ValidateOk | src/compose/parser.rs:114-181 | a run that visits every service without an error returns exactly the services' warnings |
| ComposeParser.ReplaceAbsent | src/compose/parser.rs:225-226 | replacing a pattern that cannot occur leaves the text alone |
| ComposeParser.ReplaceFirst | src/compose/parser.rs:225-226 | the first occurrence is replaced and the rest processed on |
| ComposeParser.ReplaceSelf | src/compose/parser.rs:225-226 | replacing a pattern by itself changes nothing |
| ComposeParser.EnvLookup | src/compose/parser.rs:219-236 | the lookup table has exactly the environment's keys |
| ComposeParser.IdentRun | src/compose/parser.rs:230 | the longest leading run of name characters |
| ComposeParser.DefaultAt | src/compose/parser.rs:230-237 | a match is exactly a leading `${NAME:-default}` with a valid name and a default without `}`; text not starting with `$` never matches |
| ComposeParser.InterpolateString | src/compose/parser.rs:219-240 | the result is every variable substituted in turn (both spellings), then every `${NAME:-default}` resolved |
| ComposeParser.NoDollarDefaults | src/compose/parser.rs:229-237 | text without `$` passes through the default step unchanged |
| ComposeParser.NoDollarSubstitute | src/compose/parser.rs:223-227 | text without `$` passes through the substitution loop unchanged |
| ComposeParser.InterpolateSingle | src/compose/parser.rs:219-240 | with one variable, interpolation is one substitution step followed by the default step |
| ComposeParser.InterpolateBraced | src/compose/parser.rs:223-226 | `${VAR}` becomes the variable's value |
| ComposeParser.InterpolateBare | src/compose/parser.rs:223-227 | `$VAR` becomes the variable's value |
| ComposeParser.SubstituteBare | src/compose/parser.rs:225-226 | the substitution step on a text whose only reference is `$VAR` replaces it |
| ComposeParser.InterpolateDefault | src/compose/parser.rs:229-237 | `${VAR:-d}` takes the variable's value when set and falls back to `d` otherwise |
| ComposeParser.DefaultMatch | src/compose/parser.rs:230 | the pattern is recognised at the start of `${NAME:-default}` text |
| ComposeParser.BarePrefixSubstituted | src/compose/parser.rs:226 | `$NAME` is replaced wherever the text merely starts with the name: with only `A` set, `$AB` becomes the value of `A` followed by `B` |
| ContainerConfigs.StatusName | src/container/config.rs:30-42 | every status displays as a non-empty lowercase name |
| ContainerConfigs.StatusNameInjective | src/container/config.rs:30-42 | two statuses display the same iff they are the same status |
| ContainerConfigs.RemoveDashes | src/container/config.rs:99 | the UUID text loses exactly its dashes: no `-` remains and every other character is kept |
| ContainerConfigs.Default | src/container/config.rs:96-123 | the default has a 12-character dash-free id, status Creating, working dir `/`, network mode `bridge`, empty name/image/hostname, no commands, env, labels, ports or mounts, no resource limits and no timestamps or exit code |
| ContainerConfigs.New | src/container/config.rs:128-134 | the default with the given name and image, and a hostname equal to the name |
| ContainerConfigs.WithCmd | src/container/config.rs:137-140 | only the command changes, to the given one |
| ContainerConfigs.WithEnv | src/container/config.rs:143-146 | the key maps to the value, every other variable is kept, the key set grows by that key only, and nothing else changes |
| ContainerConfigs.WithWorkingDir | src/container/config.rs:149-152 | only the working directory changes |
| ContainerConfigs.WithPort | src/container/config.rs:155-162 | exactly one TCP mapping with the given ports is appended and nothing else changes |
| ContainerConfigs.WithVolume | src/container/config.rs:165-172 | exactly one writable mount with the given paths is appended and nothing else changes |
| ContainerLifecycle.RunningIdsBounded | src/container/lifecycle.rs:154-171 | there are never more running containers than containers |
| ContainerLifecycle.ShownAll | src/container/lifecycle.rs:129-139 | the containers `list(all)` shows are exactly the stored ones the filter (all, or Running) accepts |
| ContainerLifecycle.SelectedAll | src/container/lifecycle.rs:129-139 | `list(true)` selects as many containers as are stored, `list(false)` as many as are running |
| ContainerLifecycle.ContainerManager.constructor | src/container/lifecycle.rs:20-27 | a new manager has no containers |
| ContainerLifecycle.ContainerManager.Create | src/container/lifecycle.rs:30-43 | an id already present fails with ContainerExists and leaves the map alone; otherwise the map gains exactly that id, mapped to the configuration, and the id is returned |
| ContainerLifecycle.ContainerManager.Drive | src/container/lifecycle.rs:46-99 | an unknown id fails with ContainerNotFound and changes nothing; otherwise the container's own transition decides: its error and no change, or exactly that entry replaced by the transition's result |
| ContainerLifecycle.ContainerManager.Start | src/container/lifecycle.rs:46-54 | unknown id: ContainerNotFound; Running: ContainerAlreadyRunning; both leave the map unchanged; otherwise only that container becomes Running with its start time |
| ContainerLifecycle.ContainerManager.Stop | src/container/lifecycle.rs:57-65 | unknown id: ContainerNotFound; not Running: ContainerNotRunning; both without change; otherwise only that container changes: Stopped, finished at `now`, exit code 0 |
| ContainerLifecycle.ContainerManager.Pause | src/container/lifecycle.rs:68-76 | unknown id or not Running fail without change; otherwise only that container becomes Paused |
| ContainerLifecycle.ContainerManager.Unpause | src/container/lifecycle.rs:79-87 | unknown id or not Paused fail without change; otherwise only that container becomes Running |
| ContainerLifecycle.ContainerManager.Kill | src/container/lifecycle.rs:90-98 | unknown id, or neither Running nor Paused, fail without change; otherwise only that container changes: Exited, finished at `now`, exit code 137 |
| ContainerLifecycle.ContainerManager.Remove | src/container/lifecycle.rs:101-116 | unknown id fails with ContainerNotFound; an unforced remove of a running container fails and keeps it; a forced one kills it first; on success the id leaves the map and nothing else changes |
| ContainerLifecycle.ContainerManager.Get | src/container/lifecycle.rs:119-126 | the stored configuration of the id, or ContainerNotFound |
| ContainerLifecycle.ContainerManager.List | src/container/lifecycle.rs:129-139 | all containers when `all`, otherwise exactly the running ones; the count matches, so each appears once |
| ContainerLifecycle.ContainerManager.FindByName | src/container/lifecycle.rs:142-151 | a stored container with that name, or None exactly when no container has it |
| ContainerLifecycle.ContainerManager.Count | src/container/lifecycle.rs:154-159 | the number of stored containers |
| ContainerLifecycle.ContainerManager.RunningCount | src/container/lifecycle.rs:162-171 | the number of running containers, which never exceeds `count` |
| ContainerRuntime.Guards | src/container/runtime.rs:54-129 | each transition's guard, both directions: start iff not Running; stop and pause iff Running; unpause iff Paused; kill iff Running or Paused; remove iff not Running |
| ContainerRuntime.Errors | src/container/runtime.rs:55-127 | a refused start reports ContainerAlreadyRunning, a refused stop/pause/kill reports ContainerNotRunning, a refused unpause/remove a container error |
| ContainerRuntime.Effect | src/container/runtime.rs:59-129 | a successful command reaches its target status (Running, Stopped, Paused, Running, Exited, Removing); start records the start time, stop exit code 0 and the finish time, kill exit code 137 and the finish time; identity and configuration never change |
| ContainerRuntime.ApplyPreservesConsistent | src/container/runtime.rs:54-129 | every successful transition keeps the record consistent: running or paused implies a start time, stopped or exited implies an exit code and a finish time |
| ContainerRuntime.RunConsistent | src/container/runtime.rs:54-129 | any history of commands from a consistent record leaves it consistent and keeps its id |
| ContainerRuntime.DefaultConsistent | src/container/config.rs:96-123 | a fresh default configuration is consistent |
| ContainerRuntime.Container.constructor | src/container/runtime.rs:21-31 | the container keeps the configuration; its bundle is `<base>/<id>` and its rootfs `<bundle>/rootfs` |
| ContainerRuntime.Container.Perform | src/container/runtime.rs:54-129 | applies a command in place: success installs the transition's result, refusal changes nothing; the paths never change |
| ContainerRuntime.Container.Start | src/container/runtime.rs:54-68 | on a Running container fails with ContainerAlreadyRunning and changes nothing; otherwise status Running and start time recorded, nothing else changes |
| ContainerRuntime.Container.Stop | src/container/runtime.rs:72-81 | requires Running, else ContainerNotRunning and no change; on success Stopped, exit code 0, finish time recorded |
| ContainerRuntime.Container.Pause | src/container/runtime.rs:85-91 | only from Running (else ContainerNotRunning, no change); yields Paused |
| ContainerRuntime.Container.Unpause | src/container/runtime.rs:95-101 | only from Paused (else `Container is not paused` and no change); yields Running |
| ContainerRuntime.Container.Kill | src/container/runtime.rs:105-118 | only from Running or Paused (else ContainerNotRunning, no change); yields Exited with exit code 137 and a finish time |
| ContainerRuntime.Container.Remove | src/container/runtime.rs:122-129 | fails on a Running container with `Cannot remove a running container` and no change; otherwise status Removing |
| ContainerRuntime.Container.Id | src/container/runtime.rs:34-36 | the id is the configuration's |
| ContainerRuntime.Container.Status | src/container/runtime.rs:44-46 | the status is the configuration's |
| ContainerRuntime.Container.IsRunning | src/container/runtime.rs:49-51 | running iff the status is Running |
| DaemonApi.HexPair | src/daemon/api.rs:1943-1945 | two hex digits give their byte value; a non-digit second character fails; any result is below 256 |
| DaemonApi.Then | src/daemon/api.rs:1937-1960 | decoding the rest fails iff the whole decoding fails |
| DaemonApi.UrlDecode | src/daemon/api.rs:1937-1960 | the loop computes the decoding: `%XX` becomes the byte XX, `+` a space, anything else is copied, and a `%` without two hex digits fails |
| DaemonApi.DecodeEncode | src/daemon/api.rs:1937-1960 | decoding undoes percent-encoding of any byte text |
| DaemonApi.DecodePlain | src/daemon/api.rs:1937-1960 | text without `%` or `+` decodes to itself |
| DaemonApi.DecodeTruncated | src/daemon/api.rs:1943-1952 | a trailing `%` with fewer than two characters after it fails |
| DaemonApi.ParsePortSpec | src/daemon/api.rs:1964-1973 | the port before the first `/` as a 16-bit number, 0 when it does not parse; the protocol is UDP iff the second part is exactly `udp` |
| DaemonApi.ParsePortSpecRoundTrip | src/daemon/api.rs:1964-1973 | parsing `port/protocol` gives back that port and protocol |
| DaemonApi.QueryOf | src/daemon/api.rs:2023 | there is a query iff the path contains `?` |
| DaemonApi.FirstValue | src/daemon/api.rs:2024-2030 | no pair gives the key: none; otherwise the value of the first pair with a `=` and that key |
| DaemonApi.ParseQueryParam | src/daemon/api.rs:2022-2033 | the loop returns the first pair with that key, parsed as a 32-bit number; later pairs are never consulted |
| DaemonApi.QueryParamSingle | src/daemon/api.rs:2022-2033 | a single `key=n` query yields n |
| DaemonApi.IntToString | src/daemon/api.rs:2012-2018 | a count renders as a non-empty text without spaces |
| DaemonApi.DurationParts | src/daemon/api.rs:2008-2019 | under a minute the seconds themselves; otherwise the largest unit among minutes, hours and days that fits, with the count rounded down (below 60 minutes, below 24 hours) |
| DaemonApi.FormatDuration | src/daemon/api.rs:2008-2019 | the text is the count, one space and the unit |
| DaemonApi.TrimSlashes | src/daemon/api.rs:518 | exactly the leading `/` characters are removed |
| DaemonApi.RouteParts | src/daemon/api.rs:516-525 | the routed segments contain no `/` and no `?` |
| DaemonApi.SkipVersion | src/daemon/api.rs:520-525 | only a first segment starting with `v1.` is dropped |
| DaemonApi.RoutePartsNoQuery | src/daemon/api.rs:516-525 | a path without a query is routed on its slash-separated segments, minus a version segment |
| DaemonApi.RoutePartsIgnoreQuery | src/daemon/api.rs:517 | the query string plays no part in routing |
| DaemonApi.SkipVersionSegment | src/daemon/api.rs:520-525 | after a `/v1.xx/` prefix, what follows is routed segment by segment |
| DaemonApi.ParseBind | src/daemon/api.rs:920-927 | a bind is read iff it contains `:`; host and container paths are its first two parts; read-only iff the third part is `ro` |
| DaemonApi.ParseBindText | src/daemon/api.rs:920-927 | a bind written from a mount reads back as that mount |
| DaemonApi.BindsOf | src/daemon/api.rs:918-929 | a volume is listed iff some bind parses to it, never more volumes than binds |
| DaemonApi.CollectBinds | src/daemon/api.rs:918-929 | the loop pushes one volume per parsing bind, in the binds' order |
| DaemonApi.BindsOfAll | src/daemon/api.rs:918-929 | when every bind parses, the k-th volume is the k-th bind's |
| DependencyGraph.StepDown | src/compose/orchestrator.rs:316-318 | in an order that lists every dependency before its dependent, each dependency sits strictly earlier |
| DependencyGraph.DescendAlong | src/compose/orchestrator.rs:283-321 | along a dependency walk, positions in such an order strictly decrease |
| DependencyGraph.OrderedIsAcyclic | src/compose/orchestrator.rs:270-321 | an order listing every service after all its dependencies exists only for a graph without a cycle |
| DependencyGraph.CycleFromWalk | src/compose/orchestrator.rs:294-299 | meeting a name that is still being visited closes a dependency cycle |
| DependencyGraph.WalkExtend | src/compose/orchestrator.rs:301-313 | descending into a dependency extends the walk of names being visited |
| DependencyGraph.DepsBeforeAppend | src/compose/orchestrator.rs:316-318 | appending a name whose dependencies are all placed keeps every dependency before its dependent |
| DependencyGraph.PlaceAfterDeps | src/compose/orchestrator.rs:316-318 | placing a service after all its dependencies keeps the order sound and duplicate-free and adds exactly that name |
| ImageBuilder.ParseFrom | src/image/builder.rs:306-326 | fails (FROM requires an image) iff there are no words; the first word is `image[:tag]` split at its first `:`; an alias is present iff there are at least three words and the second is `AS` in any case, and it is the third word |
| ImageBuilder.ParseRun | src/image/builder.rs:328-342 | RUN keeps its text and is shell form iff it does not start with `[` |
| ImageBuilder.FlagValue | src/image/builder.rs:352-358 | a flag value is the text up to the first space (all of it when there is none) and holds no space; what follows that space, trimmed, is the rest |
| ImageBuilder.CopyFlags | src/image/builder.rs:350-362 | the flag loop stops only at text that starts with neither `--from=` nor `--chown=`; text without a flag is returned unchanged; a flag seen sets its value (space-free) and values are only ever set, never cleared; a value changes only when a flag leads the text |
| ImageBuilder.LastFlagCons | src/image/builder.rs:350-362 | a leading flag decides its kind's value only when no later flag of that kind follows |
| ImageBuilder.CopyFlagsRendered | src/image/builder.rs:350-362 | flags written as `--from=<v> ` and `--chown=<v> ` with space-free values, followed by text that is no flag, are read back: the loop stops at that text and each value is that of the last flag of its kind, the earlier value when there is none |
| ImageBuilder.SrcDest | src/image/builder.rs:364-378 | with fewer than two words sources and destination are empty; otherwise the sources followed by the destination are the words, in order (destination last) |
| ImageBuilder.CopyArgs | src/image/builder.rs:344-386 | COPY: sources empty iff destination empty; a leading `--from=`/`--chown=` sets that (space-free) value and only a leading flag sets any; without flags sources then destination are the words |
| ImageBuilder.CopyArgsRendered | src/image/builder.rs:344-386 | COPY with rendered flags: `from` and `chown` are the last value of each flag (none when absent) and the words after the flags give sources and destination |
| ImageBuilder.ParseCopy | src/image/builder.rs:344-386 | the loop computes the COPY of its reference definition, hence the last-flag values that CopyArgsRendered states; sources are empty iff the destination is |
| ImageBuilder.ParseAdd | src/image/builder.rs:388-414 | ADD: sources empty iff destination empty; without a leading `--chown=` no owner and sources/destination split like COPY; with it the owner is the flag value and the words after it give sources and destination |
| ImageBuilder.CommandForm | src/image/builder.rs:416-446 | shell form is the whole text as one word; exec form is not shell and its command is the decoded array, empty when it does not decode |
| ImageBuilder.ParseEnv | src/image/builder.rs:448-467 | fails (ENV requires a key and value) iff there is neither `=` nor a second word; `key=value` gives as key the trimmed text before the first `=` (holding no `=`) and as value the trimmed text after it with surrounding quotes stripped; `key value` gives the first word and the trimmed rest |
| ImageBuilder.EnvRoundTrip | src/image/builder.rs:448-467 | `key=value` with a trimmed key holding no `=` and a trimmed unquoted value parses back to exactly that key and value |
| ImageBuilder.ParseArg | src/image/builder.rs:469-481 | a default is present iff the text holds `=`; then the name (holding no `=`) and the default are the trimmed text before and after the first `=`; otherwise the name is the trimmed text |
| ImageBuilder.ParseUser | src/image/builder.rs:483-489 | the user has no `:`; with a group the text is `user:group`, else the whole text is the user |
| ImageBuilder.ParseExpose | src/image/builder.rs:491-500 | fails at that line iff the part before the first `/` is not a 16-bit number; otherwise the port is that number and the protocol is the second part, `tcp` when absent |
| ImageBuilder.ExposeRoundTrip | src/image/builder.rs:491-500 | a 16-bit port written in decimal, with or without `/<protocol>`, parses back to that port and protocol, `tcp` when none is written |
| ImageBuilder.ParseVolume | src/image/builder.rs:502-510 | the non-JSON form gives the whitespace-separated words; the JSON form gives the decoded array, none when it does not decode |
| ImageBuilder.Labels | src/image/builder.rs:515-521 | labels only accumulate: keys seen earlier stay |
| ImageBuilder.LabelsKeys | src/image/builder.rs:512-525 | the keys are the earlier ones plus those of the `key=value` words |
| ImageBuilder.LabelsKeep | src/image/builder.rs:515-521 | a key no word sets keeps its earlier value |
| ImageBuilder.LabelsLastWins | src/image/builder.rs:512-525 | each key takes the unquoted value of the last word setting it |
| ImageBuilder.ParseLabel | src/image/builder.rs:512-525 | the label keys are exactly the keys of the `key=value` words, and each takes the unquoted value of the last word setting it |
| ImageBuilder.HealthOption | src/image/builder.rs:545-553 | `--interval=`, `--timeout=`, `--start-period=` set that duration to the text after the prefix and `--retries=` the parsed 32-bit count, nothing else changing; no option applies iff the word has none of the four prefixes |
| ImageBuilder.HealthScan | src/image/builder.rs:544-557 | the command is the words after the first `CMD`, joined by spaces, and unset when no later word is `CMD`; a setting no word before that `CMD` names keeps its value |
| ImageBuilder.CmdAt | src/image/builder.rs:544-557 | the position of the first `CMD` word from a start, the word count when there is none |
| ImageBuilder.HealthScanSetting | src/image/builder.rs:544-557 | the scan leaves an option alone when no word before the first `CMD` names it, and otherwise sets it from the last word before that `CMD` that names it |
| ImageBuilder.HealthScanOptions | src/image/builder.rs:544-557 | the four options after the scan: each the value of the last word before the first `CMD` naming it, the starting value when none does |
| ImageBuilder.HealthcheckArgs | src/image/builder.rs:527-570 | `NONE` in any case disables the check; otherwise the command is the words after the first `CMD` joined by spaces, none without a `CMD` word, and each of interval, timeout, start period and retries is unset when no word before that `CMD` names it, else the value of the last word before it that does (retries parsed as a 32-bit count) |
| ImageBuilder.HealthWord | src/image/builder.rs:544-557 | one loop step: stops exactly at a `CMD` word, with the command set as the scan gives it; otherwise the scan from the next word gives the same result |
| ImageBuilder.ParseHealthcheck | src/image/builder.rs:527-570 | the loop computes the HEALTHCHECK of its reference definition, hence the command and the last-named option values that HealthcheckArgs states |
| ImageBuilder.ParseShell | src/image/builder.rs:572-580 | succeeds iff the text decodes as a JSON array, which becomes the shell; else SHELL requires JSON array format |
| ImageBuilder.ParseInstruction | src/image/builder.rs:267-304 | each keyword of the table (in any case) hands the trimmed text after it to that keyword's parser; a keyword outside the table fails with `Unknown instruction: <KEYWORD>`; ONBUILD parses the rest of the line as an instruction and wraps it, or returns that parse's error; every error carries the line number |
| ImageBuilder.ParseLines | src/image/builder.rs:198-221 | one parse result per logical line |
| ImageBuilder.LogicalSkip | src/image/builder.rs:202-204 | empty and `#` lines are skipped without touching the continuation |
| ImageBuilder.LogicalCont | src/image/builder.rs:207-211 | a line ending in a backslash joins the continuation without the backslash and with a space |
| ImageBuilder.LogicalEmit | src/image/builder.rs:213-221 | any other line ends the logical line, reported at its own 1-based number, and clears the continuation |
| ImageBuilder.AssembleStep | src/image/builder.rs:221-248 | a parse error stops the pass; a FROM closes the current stage and opens one; another instruction joins the open stage or is `Instruction before FROM` |
| ImageBuilder.UnfoldAppend | src/image/builder.rs:251-254 | writing stages back as instructions distributes over concatenation |
| ImageBuilder.CountFromAppend | src/image/builder.rs:256-261 | the number of FROMs distributes over concatenation |
| ImageBuilder.CountFromNone | src/image/builder.rs:238-240 | a stage body holds no FROM |
| ImageBuilder.UnfoldCount | src/image/builder.rs:224-261 | well-formed stages written back hold exactly one FROM per stage |
| ImageBuilder.WellFormedOpen | src/image/builder.rs:226-236 | opening a fresh stage keeps the stages well formed |
| ImageBuilder.WellFormedAdd | src/image/builder.rs:238-240 | adding a non-FROM instruction keeps the stages well formed |
| ImageBuilder.AssembleOk | src/image/builder.rs:221-263 | the stage pass succeeds iff every logical line parses and, unless a stage is open, the first one is a FROM |
| ImageBuilder.AssembleUnfold | src/image/builder.rs:221-263 | the stages returned, written back, are exactly the parsed instructions in order |
| ImageBuilder.UnfoldOpen | src/image/builder.rs:226-236 | opening a stage at a FROM writes that FROM back |
| ImageBuilder.UnfoldAdd | src/image/builder.rs:238-240 | an instruction added to the open stage is written back after the stage's others |
| ImageBuilder.ParseBuildContent | src/image/builder.rs:193-264 | the parse equals its specification and a successful parse has at least one stage (no FROM gives `No FROM instruction found`) |
| ImageBuilder.ParsePhysicalLines | src/image/builder.rs:198-263 | the loop over physical lines with a continuation buffer, a current stage and the finished stages computes the stages of its specification, never an empty list |
| ImageBuilder.ParseContentSpec | src/image/builder.rs:193-264 | parsing succeeds iff every logical line parses and the first is a FROM; then there is one stage per FROM and the stages hold every instruction, in order |
| ImageBuilder.FirstNotFromRefused | src/image/builder.rs:238-261 | input whose first logical line is not FROM (or that has none) is refused |
| ImageStore.Retag | src/image/store.rs:175-178 | after the tag loop every listed tag maps to the id, every other tag keeps its target, and no other key appears |
| ImageStore.ImageStore.constructor | src/image/store.rs:152-162 | a new store has no images and no tags |
| ImageStore.ImageStore.Store | src/image/store.rs:165-181 | the image is filed under its id (replacing any earlier one) and each of its repo tags maps to that id |
| ImageStore.ImageStore.Get | src/image/store.rs:185-214 | lookup by exact id first, then by a tag whose image exists, then by id prefix (some match iff an id starts with the reference); otherwise ImageNotFound |
| ImageStore.ImageStore.FindByPrefix | src/image/store.rs:207-250 | some stored id the reference is a prefix of, or None exactly when there is none |
| ImageStore.ImageStore.List | src/image/store.rs:218-225 | every stored image and nothing else |
| ImageStore.ImageStore.ResolveForRemove | src/image/store.rs:238-252 | remove resolves an id, else the tag's target, else some id with that prefix |
| ImageStore.ImageStore.Remove | src/image/store.rs:228-273 | on success exactly the resolved image and the mappings of all its repo tags are gone; it succeeds iff the reference is an image id, a tag of a stored image, or (neither being known) a prefix of some id; failure is ImageNotFound and changes nothing |
| ImageStore.ImageStore.Tag | src/image/store.rs:277-307 | an unknown source fails with ImageNotFound and changes nothing; otherwise the target maps to the source's id and appears in that image's repo tags exactly when it was absent before, without duplicates |
| ImageStore.ImageStore.DanglingIds | src/image/store.rs:322-326 | exactly the ids of untagged images, each once |
| ImageStore.ImageStore.Prune | src/image/store.rs:315-338 | removes exactly the images with no tags, returns their ids, and leaves the tag map alone |
| LocalClient.HexPadded | rune-wasm/src/client/local.rs:66 | lower-case hex of at least one digit and at least the requested width |
| LocalClient.HexPaddedValue | rune-wasm/src/client/local.rs:66 | the padded hex digits spell the number back |
| LocalClient.HexPaddedLength | rune-wasm/src/client/local.rs:66 | a number below `16^width` takes exactly `width` digits |
| LocalClient.HexPaddedSplit | rune-wasm/src/client/local.rs:66 | the digits of `high * 16^b + low` are those of `high` followed by those of `low` |
| LocalClient.IdOf | rune-wasm/src/client/local.rs:62-67 | an id has at least 24 characters |
| LocalClient.IdFields | rune-wasm/src/client/local.rs:62-67 | while each field fits its width the id is 24 digits that spell clock, counter and random word back |
| LocalClient.IdsDistinct | rune-wasm/src/client/local.rs:62-67 | ids made at the same millisecond with the same random word are equal iff their counters are |
| LocalClient.DefaultName | rune-wasm/src/client/local.rs:87-89 | `container_` followed by the first eight characters of the id |
| LocalClient.DefaultNameFromClock | rune-wasm/src/client/local.rs:62-89 | the default name depends only on the clock's top eight hex digits, not on counter or random word |
| LocalClient.NewContainer | rune-wasm/src/client/local.rs:86-104 | a new container has the fresh id, the requested image, state `created`, the given or default name, and no ports or volumes |
| LocalClient.ListExactly | rune-wasm/src/client/local.rs:151-159 | without `all` exactly the running containers are listed; with it every container |
| LocalClient.LocalContainerManager.constructor | rune-wasm/src/client/local.rs:53-59 | no containers, no images, counter zero |
| LocalClient.LocalContainerManager.GenerateId | rune-wasm/src/client/local.rs:62-67 | the counter goes up by one and the id is made of clock, new counter and random word |
| LocalClient.LocalContainerManager.CreateContainer | rune-wasm/src/client/local.rs:71-114 | an undecodable configuration changes nothing; a decoded one adds a created container under a freshly generated id |
| LocalClient.LocalContainerManager.SetState | rune-wasm/src/client/local.rs:117-139 | a known container gets the new state and status; an unknown id fails with not-found and changes nothing |
| LocalClient.LocalContainerManager.StartContainer | rune-wasm/src/client/local.rs:117-127 | a known container becomes `running`/`Up`; an unknown id fails with not-found |
| LocalClient.LocalContainerManager.StopContainer | rune-wasm/src/client/local.rs:129-139 | a known container becomes `exited`/`Exited (0)`; an unknown id fails with not-found |
| LocalClient.LocalContainerManager.RemoveContainer | rune-wasm/src/client/local.rs:141-149 | succeeds iff the id was present, and the container is gone afterwards |
| LocalClient.LocalContainerManager.GetContainer | rune-wasm/src/client/local.rs:162-168 | a container iff the id is present, and it is the stored one |
| LocalClient.LocalContainerManager.AddImage | rune-wasm/src/client/local.rs:171-182 | the image is stored under its id, replacing any earlier one; containers untouched |
| LocalClient.LocalContainerManager.RemoveImage | rune-wasm/src/client/local.rs:191-199 | succeeds iff the image was present, and it is gone afterwards |
| LocalClient.LocalContainerManager.ImportState | rune-wasm/src/client/local.rs:212-231 | true iff the state decodes; then the manager is exactly that state, otherwise it is unchanged |
| LocalClient.LocalContainerManager.Clear | rune-wasm/src/client/local.rs:271-275 | no containers, no images, counter zero |
| LocalClient.ExportImport | rune-wasm/src/client/local.rs:201-231 | importing an exported state makes another manager equal to the source, counts included |
| LocalClient.StartThenStop | rune-wasm/src/client/local.rs:117-139 | start then stop leaves the container `exited` whatever it was, and no other container changes |
| LocalClient.LocalContainerManager.ListContainers | rune-wasm/src/client/local.rs:151-159 | no more entries than the iteration order; every entry is a stored container, running unless `all`; every container that qualifies is listed |
| LocalClient.LocalContainerManager.ListImages | rune-wasm/src/client/local.rs:184-187 | one image per key of the iteration order, in that order, so every stored image is listed |
| LocalClient.LocalContainerManager.ExportState | rune-wasm/src/client/local.rs:201-208 | the snapshot holds the containers, the images and the counter, which `import_state` restores |
| LocalClient.LocalContainerManager.ContainerCount | rune-wasm/src/client/local.rs:259-261 | the number of stored container ids |
| LocalClient.LocalContainerManager.CountListsAll | rune-wasm/src/client/local.rs:151-261 | the container count equals the length of the full listing |
| LocalClient.LocalContainerManager.ImageCount | rune-wasm/src/client/local.rs:265-267 | the number of stored image ids |
| LocalClient.LocalContainerManager.ImageCountLists | rune-wasm/src/client/local.rs:184-267 | the image count equals the length of the image listing |
| LspSyntax.FromStr | src/lsp/syntax.rs:34-56 | never a comment; a keyword kind iff the upper-cased word is its keyword; otherwise Unknown carrying the original spelling, and then no keyword matches |
| LspSyntax.FromStrIgnoresCase | src/lsp/syntax.rs:34-56 | words equal once upper-cased give the same kind, or are both unknown |
| LspSyntax.ArgEntry | src/lsp/syntax.rs:495-501 | an ARG has a default iff its text contains `=` |
| LspSyntax.InsertPairsKeys | src/lsp/syntax.rs:503-524 | after recording `key=value` words, a key is present iff it was before or some word gives it |
| LspSyntax.InsertPairsLastWins | src/lsp/syntax.rs:503-524 | the last word that gives a key decides its value, with surrounding quotes stripped |
| LspSyntax.RecordPairs | src/lsp/syntax.rs:506-524 | the recording loop yields the pairs of all words, in order |
| LspSyntax.FirstAs | src/lsp/syntax.rs:527-537 | the first `AS` (any case) that has a word after it, and no earlier such `AS` |
| LspSyntax.StageNames | src/lsp/syntax.rs:527-537 | a FROM declares at most one stage name |
| LspSyntax.LineStepShape | src/lsp/syntax.rs:411-493 | parsing one line reports no error and adds at most one instruction |
| LspSyntax.PendingOpen | src/lsp/syntax.rs:362-397 | a file whose last line ends in a backslash leaves the continuation buffer open |
| LspSyntax.RunLinesErrors | src/lsp/syntax.rs:362-386 | the line pass reports no error of its own |
| LspSyntax.CountKind | src/lsp/syntax.rs:577-579 | the count of instructions of a kind is at most the number of instructions, and positive iff one exists |
| LspSyntax.FirstNonArg | src/lsp/syntax.rs:552-553 | the first instruction that is neither ARG nor a comment, and none before it |
| LspSyntax.MaintainerWarnings | src/lsp/syntax.rs:567-575 | every warning collected is the MAINTAINER deprecation warning |
| LspSyntax.CheckHealthcheck | src/lsp/syntax.rs:601-620 | no error iff the upper-cased arguments are `NONE` once trimmed or contain `CMD`; otherwise the error at the instruction |
| LspSyntax.HealthcheckErrors | src/lsp/syntax.rs:591-598 | every error collected is the healthcheck error |
| LspSyntax.MissingFromReported | src/lsp/syntax.rs:541-549 | the missing-FROM error is reported iff there is no FROM |
| LspSyntax.FirstNotFromReported | src/lsp/syntax.rs:552-564 | the FROM-first error is reported iff the first instruction other than ARG and comments is not FROM, and then at that instruction |
| LspSyntax.MessagesDistinct | src/lsp/syntax.rs:543-620 | the whole-file checks use pairwise different messages |
| LspSyntax.FirstNotFromShape | src/lsp/syntax.rs:552-564 | the FROM-first error exists only for a first counting instruction that is not FROM, at its position |
| LspSyntax.FirstNotFromPresent | src/lsp/syntax.rs:552-564 | when the first counting instruction is not FROM, its error is among those appended |
| LspSyntax.FirstNotFromOnly | src/lsp/syntax.rs:539-599 | only the FROM-first check produces its message |
| LspSyntax.ValidationMembers | src/lsp/syntax.rs:539-599 | an error `validate` appends comes from one of its five checks, and each check's errors are appended |
| LspSyntax.MaintainerWarned | src/lsp/syntax.rs:567-575 | one warning per MAINTAINER instruction, each at its position |
| LspSyntax.MultipleCmdReported | src/lsp/syntax.rs:577-589 | the multiple-CMD warning is reported iff there is more than one CMD |
| LspSyntax.HealthcheckReported | src/lsp/syntax.rs:591-598 | a HEALTHCHECK that gives neither CMD nor NONE has its error reported |
| LspSyntax.CollectMaintainerWarnings | src/lsp/syntax.rs:567-575 | the loop collects exactly the MAINTAINER warnings |
| LspSyntax.CollectHealthcheckErrors | src/lsp/syntax.rs:591-598 | the pass collects exactly the healthcheck errors |
| LspSyntax.ParsedErrors | src/lsp/syntax.rs:354-408 | after a parse, the errors are the open-continuation error (if any) followed by the whole-file checks, and nothing else |
| LspSyntax.FinishedErrors | src/lsp/syntax.rs:389-407 | the end of a parse appends the open-continuation error, if any, then the whole-file checks, and keeps the instructions |
| LspSyntax.UnclosedReported | src/lsp/syntax.rs:389-397 | a file whose last line ends in a backslash draws the `Unclosed line continuation` error |
| LspSyntax.LogicalCont | src/lsp/syntax.rs:366-374 | a line ending in a backslash joins the buffer (without the backslash, plus a space) and, on an empty buffer, marks the start line |
| LspSyntax.LogicalEmit | src/lsp/syntax.rs:376-386 | any other line completes a logical line, which is parsed at once at that physical line |
| LspSyntax.LogicalDone | src/lsp/syntax.rs:362-389 | after the last line nothing is left to parse and the buffer is what remains |
| LspSyntax.RunefileParser.constructor | src/lsp/syntax.rs:342-351 | a new parser holds no instructions, metadata, stages or errors |
| LspSyntax.RunefileParser.Parse | src/lsp/syntax.rs:354-408 | the parser's state becomes the parse of the content, whatever it held before |
| LspSyntax.RunefileParser.FeedLine | src/lsp/syntax.rs:362-386 | one loop pass keeps the state and buffer equal to what the remaining lines will produce |
| LspSyntax.RunefileParser.Reset | src/lsp/syntax.rs:355-360 | clears instructions, errors, args, envs, labels and stages |
| LspSyntax.RunefileParser.Finish | src/lsp/syntax.rs:389-407 | appends the open-continuation error, if any, then validates |
| LspSyntax.RunefileParser.ParseLine | src/lsp/syntax.rs:411-493 | blank lines and leading directives are skipped; `#` lines become comments; other lines record their metadata and one instruction |
| LspSyntax.RunefileParser.ParseArg | src/lsp/syntax.rs:495-501 | records the ARG name with its default, if any |
| LspSyntax.RunefileParser.ParseEnv | src/lsp/syntax.rs:503-517 | with `=`, records every `key=value` word; otherwise `KEY value` split at the first whitespace |
| LspSyntax.RunefileParser.ParseLabel | src/lsp/syntax.rs:519-525 | records every `key=value` word |
| LspSyntax.RunefileParser.ParseFrom | src/lsp/syntax.rs:527-537 | records the name after the first `AS` that has one |
| LspSyntax.RunefileParser.Validate | src/lsp/syntax.rs:539-599 | appends exactly the whole-file diagnostics to the errors and changes nothing else |
| LspWasmParser.KindOf | lsp-wasm/src/parser/mod.rs:106-133 | never a comment; a named kind only for its own upper-case keyword, Unknown otherwise |
| LspWasmParser.KindOfName | lsp-wasm/src/parser/mod.rs:106-133 | every keyword selects its own kind |
| LspWasmParser.UnknownExactly | lsp-wasm/src/parser/mod.rs:106-133 | a word is Unknown iff no keyword spells it |
| LspWasmParser.NameInjective | lsp-wasm/src/parser/mod.rs:106-133 | no two kinds share a keyword |
| LspWasmParser.PortWarningsExactly | lsp-wasm/src/parser/mod.rs:177-187 | an EXPOSE warning names a word iff the word is listed and its part before `/` is not a 16-bit port |
| LspWasmParser.WalkAll | lsp-wasm/src/parser/mod.rs:40-80 | the loop over all lines is the pass over the content's lines |
| LspWasmParser.SkipStep | lsp-wasm/src/parser/mod.rs:43-45 | a blank line changes nothing |
| LspWasmParser.NoteStep | lsp-wasm/src/parser/mod.rs:47-56 | a `#` line becomes a comment instruction, inside a continuation or not, and does not end it |
| LspWasmParser.ExtendStep | lsp-wasm/src/parser/mod.rs:58-62 | a continued line inside a continuation extends the buffer after a space |
| LspWasmParser.OpenStep | lsp-wasm/src/parser/mod.rs:72-77 | a continued line outside a continuation opens one at this line |
| LspWasmParser.CloseStep | lsp-wasm/src/parser/mod.rs:62-68 | the line that ends a continuation parses the joined text at the line the continuation started |
| LspWasmParser.EmitStep | lsp-wasm/src/parser/mod.rs:79 | any other line is parsed on its own |
| LspWasmParser.WalkStep | lsp-wasm/src/parser/mod.rs:40-80 | each loop iteration is one step of the pass |
| LspWasmParser.SeverityCode | lsp-wasm/src/parser/mod.rs:238-243 | every severity has an LSP code between 1 and 4 |
| LspWasmParser.SeverityOfCode | lsp-wasm/src/parser/mod.rs:238-243 | a code stands for a severity iff it is between 1 and 4 |
| LspWasmParser.SeverityCodeInjective | lsp-wasm/src/parser/mod.rs:238-243 | each severity's code reads back as that severity, and no two share a code |
| LspWasmParser.ToDiagnostic | lsp-wasm/src/parser/mod.rs:227-246 | same message and severity, source `runefile-lsp`, a range on one line (the line cut to 32 bits) from column 0 to 100 |
| LspWasmParser.Diagnostics | lsp-wasm/src/parser/mod.rs:223-250 | one diagnostic per error, in order, with its severity and message, source `runefile-lsp`, on one line below 2^32 that is the error's line when that fits |
| LspWasmParser.RunefileParser.constructor | lsp-wasm/src/parser/mod.rs:22-27 | a new parser holds no instruction and no error |
| LspWasmParser.RunefileParser.Parse | lsp-wasm/src/parser/mod.rs:31-89 | the instructions and errors become those of parsing the content, whatever an earlier parse left |
| LspWasmParser.RunefileParser.ParseLine | lsp-wasm/src/parser/mod.rs:40-80 | one loop iteration advances the state to the pass over one more line |
| LspWasmParser.RunefileParser.ParseInstruction | lsp-wasm/src/parser/mod.rs:91-145 | appends the line's instruction and its errors, and FROM has been seen iff it had been or this is one |
| LspWasmParser.RunefileParser.Classify | lsp-wasm/src/parser/mod.rs:92-133 | the keyword (upper-cased first word), the trimmed arguments and the kind are those of the line's instruction |
| LspWasmParser.RunefileParser.ValidateInstruction | lsp-wasm/src/parser/mod.rs:148-220 | appends exactly the argument checks' errors and warnings |
| LspWasmParser.RunefileParser.CheckPorts | lsp-wasm/src/parser/mod.rs:177-187 | appends one warning per word that is no port |
| LspWasmParser.RunefileParser.GetDiagnostics | lsp-wasm/src/parser/mod.rs:223-250 | one diagnostic per current error, in order, with its severity, message and source `runefile-lsp`, at the error's line when that fits in 32 bits |
| LspWasmParser.ErrorsOfAppend | lsp-wasm/src/parser/mod.rs:135-145 | one more instruction adds its own errors at the end |
| LspWasmParser.ApplyErrors | lsp-wasm/src/parser/mod.rs:40-80 | through the pass, the errors are exactly those of the recorded instructions |
| LspWasmParser.WalkAccounted | lsp-wasm/src/parser/mod.rs:40-80 | the pass keeps FROM tracking, kinds, line bounds and errors consistent with the instructions |
| LspWasmParser.NotMissingFrom | lsp-wasm/src/parser/mod.rs:91-220 | no single instruction raises the missing-FROM error |
| LspWasmParser.ErrorsExactly | lsp-wasm/src/parser/mod.rs:31-89 | the errors of a parse are exactly those of its instructions, plus the missing-FROM error when there are instructions but no FROM |
| LspWasmParser.MissingFromExactly | lsp-wasm/src/parser/mod.rs:82-88 | the missing-FROM error is raised iff there is at least one instruction (comments count) and no FROM |
| LspWasmParser.UnknownWarned | lsp-wasm/src/parser/mod.rs:124-131 | each Unknown instruction has no keyword spelling and a warning at its line naming it |
| LspWasmParser.InstructionKindOf | lsp-wasm/src/parser/mod.rs:97-133 | a recorded instruction other than a comment carries the kind its keyword selects |
| LspWasmParser.CopyAddNeedTwo | lsp-wasm/src/parser/mod.rs:159-176 | COPY or ADD with fewer than two non-flag operands has an error at its line |
| LspWasmParser.WorkdirChecked | lsp-wasm/src/parser/mod.rs:188-203 | an empty WORKDIR is an error; one starting with neither `/` nor `$` a warning |
| LspWasmParser.InstructionsWithinLines | lsp-wasm/src/parser/mod.rs:40-80 | no more instructions than lines, each at a line of the content |
| LspWasmParser.ParseTwice | lsp-wasm/src/parser/mod.rs:31-33 | parsing twice into one parser gives what parsing the second content once gives |
| LspWasmParser.RunefileParser.InstructionCount | lsp-wasm/src/parser/mod.rs:254-256 | the number of instructions the last parse recorded |
| LspWasmParser.RunefileParser.ErrorCount | lsp-wasm/src/parser/mod.rs:260-262 | the number of diagnostics reported, one per recorded error |
| MemoryFs.TrimTrailing | builder-wasm/src/filesystem/memory.rs:172-174 | only trailing `/` characters are removed, never the last remaining character |
| MemoryFs.Normalized | builder-wasm/src/filesystem/memory.rs:169-181 | a normalised path starts with `/` and ends with `/` only when it is the root |
| MemoryFs.NormalizedIdempotent | builder-wasm/src/filesystem/memory.rs:169-181 | normalising twice changes nothing |
| MemoryFs.NormalizedAliases | builder-wasm/src/filesystem/memory.rs:169-181 | a trailing `/` and a missing leading `/` name the same stored path |
| MemoryFs.TrimLeading | builder-wasm/src/filesystem/memory.rs:172-178 | adding the leading `/` commutes with trimming trailing ones |
| MemoryFs.NormalizePath | builder-wasm/src/filesystem/memory.rs:169-181 | the popping loop computes the normalised path |
| MemoryFs.ReadFrom | builder-wasm/src/filesystem/memory.rs:50-54 | bytes are returned iff a file (not a directory) is stored at the normalised path, and they are its content |
| MemoryFs.ReadAfterWrite | builder-wasm/src/filesystem/memory.rs:34-54 | reading after a write gives the written bytes under every spelling of the path; other paths read as before |
| MemoryFs.ReadTextFrom | builder-wasm/src/filesystem/memory.rs:57-60 | text is returned only for a readable file whose bytes decode to it |
| MemoryFs.ReadTextAfterWrite | builder-wasm/src/filesystem/memory.rs:44-60 | text written reads back unchanged |
| MemoryFs.ChildName | builder-wasm/src/filesystem/memory.rs:100-106 | a child name is non-empty, has no `/`, and is the first segment of a stored path strictly below the directory |
| MemoryFs.Entries | builder-wasm/src/filesystem/memory.rs:96-112 | at most one entry per stored path; an entry exists iff some path below the directory yields its name, with `isDir` read from the child's own record |
| MemoryFs.ListDirIn | builder-wasm/src/filesystem/memory.rs:87-115 | every listed name is a single non-empty segment of some stored path under the directory, marked a directory iff a directory is recorded at `<dir>/<name>` |
| MemoryFs.ListDirComplete | builder-wasm/src/filesystem/memory.rs:87-115 | every stored path strictly below a directory shows up in its listing by its first segment |
| MemoryFs.Exported | builder-wasm/src/filesystem/memory.rs:144-154 | exactly the files (not directories) whose bytes are valid text, with that text |
| MemoryFs.Pairs | builder-wasm/src/filesystem/memory.rs:157-163 | one pair per key of the exported map, in the given order |
| MemoryFs.ImportRestores | builder-wasm/src/filesystem/memory.rs:144-166 | importing what was exported rebuilds those files, when each is normalised text that survives decoding and re-encoding |
| MemoryFs.WriteAllPairsStep | builder-wasm/src/filesystem/memory.rs:159-161 | writing the pairs of a key order is writing those of its prefix, then the last key |
| MemoryFs.InMemoryFilesystem.constructor | builder-wasm/src/filesystem/memory.rs:26-30 | a new filesystem holds nothing |
| MemoryFs.InMemoryFilesystem.WriteFile | builder-wasm/src/filesystem/memory.rs:34-40 | stores the bytes as a file at the normalised path, replacing what was there; every stored path stays normalised |
| MemoryFs.InMemoryFilesystem.WriteTextFile | builder-wasm/src/filesystem/memory.rs:44-46 | stores the text's encoded bytes as a file |
| MemoryFs.InMemoryFilesystem.Mkdir | builder-wasm/src/filesystem/memory.rs:70-77 | records a directory at the normalised path, replacing a file there; it then reads as nothing and is a directory |
| MemoryFs.InMemoryFilesystem.Remove | builder-wasm/src/filesystem/memory.rs:80-84 | answers whether something was stored there, and nothing is afterwards; entries below it stay |
| MemoryFs.InMemoryFilesystem.GetSize | builder-wasm/src/filesystem/memory.rs:118-122 | a size iff the path exists, the content length cut to 32 bits |
| MemoryFs.InMemoryFilesystem.Clear | builder-wasm/src/filesystem/memory.rs:132-134 | nothing is stored afterwards |
| MemoryFs.InMemoryFilesystem.ImportFromJson | builder-wasm/src/filesystem/memory.rs:157-166 | true iff the JSON parses; then every pair is written as a text file in order, otherwise nothing changes |
| MemoryFs.InMemoryFilesystem.ReadFile | builder-wasm/src/filesystem/memory.rs:50-53 | bytes come back iff a file, not a directory, is stored under the normalised path, and they are its content |
| MemoryFs.InMemoryFilesystem.ReadTextFile | builder-wasm/src/filesystem/memory.rs:57-59 | no text without a readable file; otherwise the UTF-8 decoding of its bytes, none when they do not decode |
| MemoryFs.InMemoryFilesystem.Exists | builder-wasm/src/filesystem/memory.rs:63-66 | a path exists iff a file can be read there or a directory is recorded there |
| MemoryFs.InMemoryFilesystem.IsDir | builder-wasm/src/filesystem/memory.rs:125-128 | a directory is exactly a path that exists but holds no readable file |
| MemoryFs.InMemoryFilesystem.ListDir | builder-wasm/src/filesystem/memory.rs:87-122 | every entry has a non-empty name without `/`, some stored path lies under the listed directory with that name, and the entry is a directory iff a directory is recorded at `<dir>/<name>` |
| MemoryFs.InMemoryFilesystem.FileCount | builder-wasm/src/filesystem/memory.rs:138-140 | the number of stored paths, directories included |
| MemoryFs.InMemoryFilesystem.ExportAsJson | builder-wasm/src/filesystem/memory.rs:144-154 | exactly the files (not directories) whose bytes decode are exported, and each exported text reads back through `read_text_file` |
| Namespaces.CloneFlag | src/runtime/namespace.rs:33-43 | each namespace kind maps to a single-bit `CLONE_NEW*` flag |
| Namespaces.ProcName | src/runtime/namespace.rs:46-56 | each kind maps to a non-empty file name under `/proc/<pid>/ns/` with no `/` in it |
| Namespaces.KindNamed | src/runtime/namespace.rs:46-56 | the inverse of the name table: a kind it returns has that name |
| Namespaces.KindNamedProcName | src/runtime/namespace.rs:46-56 | the name table is injective: every kind is recovered from its name |
| Namespaces.CloneFlagsDisjoint | src/runtime/namespace.rs:33-43 | two kinds share a flag bit iff they are the same kind |
| Namespaces.AllKindsComplete | src/runtime/namespace.rs:59-69 | `all()` lists every kind, each exactly once, seven in total |
| Namespaces.GetCloneFlagsHas | src/runtime/namespace.rs:151-153 | the or-ed flags carry a kind's bit iff that kind is in the list |
| Namespaces.AllKindsFlags | src/runtime/namespace.rs:151-153 | the flags of all seven kinds together are `0x7E020000` |
| Namespaces.GetCloneFlagsWithin | src/runtime/namespace.rs:151-153 | the or-ed flags never carry a bit outside the seven namespace flags |
| Namespaces.New | src/runtime/namespace.rs:82-84 | a new namespace has the given kind and no process |
| Namespaces.ForProcess | src/runtime/namespace.rs:87-92 | a per-process namespace has the given kind and pid |
| Namespaces.PidPart | src/runtime/namespace.rs:101-104 | the process segment of the path is a non-empty segment without `/` |
| Namespaces.PathAsJoin | src/runtime/namespace.rs:101-107 | the path is `/proc/<pid or self>/ns/<proc name>` |
| Namespaces.ParsePathOfPath | src/runtime/namespace.rs:101-107 | the path determines the namespace: reading it back yields the kind and pid it was built from |
| Namespaces.PathInjective | src/runtime/namespace.rs:101-107 | two namespaces have equal paths iff they are equal |
| Namespaces.GetCloneFlags | src/runtime/namespace.rs:151-153 | the or-ed flags are zero iff no kind is listed |
| Namespaces.Path | src/runtime/namespace.rs:101-107 | the path starts with `/proc/` and ends with `/ns/<proc name of the kind>` |
| NetworkBridge.BridgeSubnet | src/network/bridge.rs:20-22 | a bridge allocates from its first pool's subnet, or from `172.17.0.0/16` when it has no pool |
| NetworkBridge.SubnetKeepsDefaultPool | src/network/bridge.rs:20-22 | a network built with a subnet still has the default pool first, so its bridge allocates from `172.17.0.0/16`; the given subnet is the second pool |
| NetworkBridge.NewBridge | src/network/bridge.rs:19-30 | succeeds iff the allocator accepts the subnet, and then holds the record and that allocator; otherwise the allocator's error |
| NetworkBridge.DefaultBridge | src/network/bridge.rs:100-119 | a default network's bridge is built and has only the gateway `172.17.0.1` allocated |
| NetworkBridge.DefaultPoolBridge | src/network/bridge.rs:19-30 | a record whose first pool is the default subnet always gets a bridge with only the gateway allocated |
| NetworkBridge.EndpointIpRoundTrip | src/network/bridge.rs:41-64 | an endpoint address written as `<ip>/16` is read back as `<ip>` on disconnect |
| NetworkBridge.CidrSplit | src/network/bridge.rs:61 | the text before the first `/` of `<ip>/<bits>` is the address |
| NetworkBridge.Connect | src/network/bridge.rs:33-49 | allocates an address not yet allocated, records an endpoint `<ip>/16` for the container (replacing an earlier one), and returns it |
| NetworkBridge.Disconnect | src/network/bridge.rs:52-69 | an unconnected container is an error; otherwise the endpoint goes and its address is released (absent from the allocator afterwards) |
| NetworkBridge.DefaultNetwork | src/network/bridge.rs:100-119 | each default network has its name and driver, and its first pool is the default subnet |
| NetworkBridge.Resolve | src/network/bridge.rs:150-157 | an id is taken first, then a name; anything else is unknown |
| NetworkBridge.Lookup | src/network/bridge.rs:178-195 | found iff the id-or-name resolves to a stored network, and then that network's record; else NetworkNotFound |
| NetworkBridge.CreateIn | src/network/bridge.rs:122-141 | a failed bridge build is the error; a taken name is `already exists` with no change; otherwise exactly the id and the name are added and nothing else changes |
| NetworkBridge.DefaultsCreated | src/network/bridge.rs:87-119 | creating `bridge`, `host` and `none` on empty maps succeeds each time and leaves exactly those three |
| NetworkBridge.CreateFound | src/network/bridge.rs:122-195 | after a successful create the network is found by id, and by name unless the name is some network's id |
| NetworkBridge.NetworkManager.constructor | src/network/bridge.rs:87-97 | a new manager holds exactly `bridge`, `host` and `none`, with their drivers and names indexed |
| NetworkBridge.NetworkManager.Create | src/network/bridge.rs:122-141 | the maps and the result are those of the create specification |
| NetworkBridge.NetworkManager.Remove | src/network/bridge.rs:144-175 | the maps and the result are those of the remove specification |
| NetworkBridge.RemoveIn | src/network/bridge.rs:144-175 | unknown: NetworkNotFound; with endpoints: `has active endpoints`, no change; otherwise the network and its name go; success iff the resolved id is no longer stored |
| NetworkBridge.NetworkManager.List | src/network/bridge.rs:198-203 | one record per network, every network listed |
| NetworkBridge.NetworkManager.ConnectContainer | src/network/bridge.rs:206-229 | an unknown network is NetworkNotFound with no change; otherwise only that network changes: the exact endpoint (its name, ids, MAC and a fresh address with `/16`) is recorded, the rest of the config kept, and that address appended to the allocator |
| NetworkBridge.NetworkManager.DisconnectContainer | src/network/bridge.rs:232-250 | an unknown network is NetworkNotFound; otherwise exactly the network's own disconnect, its error leaving everything unchanged |
| NetworkBridge.NetworkManager.Prune | src/network/bridge.rs:253-276 | removes exactly the networks with no endpoints other than `bridge`/`host`/`none`, with their names, and returns their ids once each |
| NetworkBridge.PruneStep | src/network/bridge.rs:270-272 | each removal in the prune loop succeeds and takes out that network and its name |
| NetworkBridge.KeptStep | src/network/bridge.rs:270-272 | removing one more id shrinks the kept networks by it and adds its name to the removed names |
| NetworkConfig.ParseOctet | src/network/config.rs:235-237 | an octet is accepted iff it is one to three decimal digits without a leading zero and below 256, and then it is that value |
| NetworkConfig.ParseIpv4 | src/network/config.rs:235-237 | an accepted address has exactly four dot-separated parts |
| NetworkConfig.NatToStringShape | src/network/bridge.rs:42 | the decimal rendering of an octet is one to three digits without a leading zero |
| NetworkConfig.OctetRoundTrip | src/network/config.rs:235-237 | a printed octet parses back to itself |
| NetworkConfig.Ipv4RoundTrip | src/network/config.rs:235-237 | a printed address parses back to itself and holds no `/` |
| NetworkConfig.DefaultIpam | src/network/config.rs:164-195 | the default IPAM uses the `default` driver and one pool, subnet `172.17.0.0/16` with gateway `172.17.0.1` |
| NetworkConfig.NewNetwork | src/network/config.rs:86-112 | a new network has the name, a bridge driver, local scope, the default IPAM, is attachable, not internal, not ingress, without IPv6, and has no containers, labels or options |
| NetworkConfig.WithDriver | src/network/config.rs:116-119 | only the driver changes |
| NetworkConfig.WithSubnet | src/network/config.rs:122-130 | exactly one pool with that subnet and no gateway is appended, nothing else changes |
| NetworkConfig.WithGateway | src/network/config.rs:133-138 | sets the gateway of the last pool only; with no pool nothing changes |
| NetworkConfig.WithLabel | src/network/config.rs:141-144 | only that label is set |
| NetworkConfig.WithInternal | src/network/config.rs:147-150 | only the internal flag changes |
| NetworkConfig.SubnetThenGateway | src/network/config.rs:122-138 | `subnet` then `gateway` adds one pool carrying both |
| NetworkConfig.Low | src/network/config.rs:255-262 | an address's position within its /16 is below 65536 |
| NetworkConfig.InSixteen | src/network/config.rs:255-262 | the address at a position keeps the first two octets |
| NetworkConfig.At | src/network/config.rs:255-262 | stepping forward counts in the low two octets and wraps within the /16 |
| NetworkConfig.AtDistinct | src/network/config.rs:255-262 | fewer than a full turn of steps never revisits an address |
| NetworkConfig.Step | src/network/config.rs:257-261 | one step of the search: the last octet wraps and carries into the third, moving one position along the /16 |
| NetworkConfig.LowInjective | src/network/config.rs:255-262 | the position and the first two octets determine the address |
| NetworkConfig.StepAt | src/network/config.rs:257-261 | one more step reaches the next position |
| NetworkConfig.TakenBound | src/network/config.rs:255-268 | if the first `off+1` candidates are all taken, more than `off` addresses are recorded |
| NetworkConfig.NewAllocator | src/network/config.rs:228-247 | a subnet that does not split into exactly two parts on `/` is `Invalid subnet`; an unparsable address `Invalid IP`; otherwise `.1` of the base's /24 is reserved and `.2` tried first |
| NetworkConfig.DefaultBaseText | src/network/config.rs:190 | the default base address prints as `172.17.0.0` |
| NetworkConfig.SplitCidr | src/network/config.rs:230 | an address, `/` and a prefix length split back into the two |
| NetworkConfig.CidrAccepted | src/network/config.rs:228-247 | any printed address with a prefix length is accepted, reserving `.1` and starting at `.2` |
| NetworkConfig.DefaultSubnetText | src/network/config.rs:190 | the default subnet text is `172.17.0.0/16` |
| NetworkConfig.DefaultSubnetAccepted | src/network/config.rs:228-314 | the default subnet reserves `172.17.0.1` and starts at `172.17.0.2` |
| NetworkConfig.Allocate | src/network/config.rs:251-277 | returns an address not already allocated: the next one when free, else the first free one found by stepping from it; records it, and the next to try is its successor with the last octet wrapping |
| NetworkConfig.Release | src/network/config.rs:280-282 | every record of exactly that address is dropped; nothing else changes |
| NetworkConfig.Without | src/network/config.rs:281 | `retain(a != x)` removes every `x` and keeps the rest |
| NetworkConfig.FirstAllocations | src/network/config.rs:309-317 | a fresh allocator hands out `.2` and then `.3` of its /24 |
| NetworkConfig.FormatIpv4 | src/network/bridge.rs:42 | the dotted-decimal text of an address is 7 to 15 characters long |
| Ordering.Sort | src/registry/server.rs:291 | the sort of the listings: an ordered permutation of its input |
| Ordering.Insert | src/registry/server.rs:291 | inserting into an ordered list keeps it ordered and adds exactly that element |
| Ordering.After | src/registry/server.rs:280-289 | the `last` filter keeps exactly the names strictly after `last`, in order, without introducing repeats |
| Ordering.AfterCount | src/registry/server.rs:280-289 | on a listing without repeats the filter keeps as many names as are eligible |
| Ordering.PaginateSpec | src/registry/server.rs:278-329 | a page is sorted, repeat-free when the listing is, holds only names after `last`, is as long as `n` allows, and every eligible name left off comes after the whole page, so the next page continues from its last entry |
| Ordering.LessIrreflexive | src/registry/server.rs:291 | no name sorts before itself under the byte order of `String` |
| Ordering.LessTrans | src/registry/server.rs:291 | the byte order of names is transitive |
| Ordering.LessTotal | src/registry/server.rs:291 | of two different names one sorts before the other |
| RegistryAuth.DefaultAuthConfig | src/registry/auth.rs:25-34 | authentication is off by default, tokens last 3600 s, realm `Rune Registry`, service `rune-registry`, issuer `rune` |
| RegistryAuth.NamespacePatternLeaks | src/registry/auth.rs:313-316 | as written, `library/*` also matches `library-private/app`, which is not under `library/` |
| RegistryAuth.MatchesRepositorySpec | src/registry/auth.rs:308-319 | `*` matches all; `ns/*` matches a repository iff it lies under `ns/`; any other pattern only the identical name |
| RegistryAuth.MatchesRepositoryNarrower | src/registry/auth.rs:308-319 | the corrected matching never admits more than the written one |
| RegistryAuth.ScopeClaims | src/registry/auth.rs:293-302 | only entries with at least three `:` fields become claims; type and name hold no `:`, and every claim has at least one action |
| RegistryAuth.ParseScope | src/registry/auth.rs:290-305 | the scope is split on spaces, so no claim field holds a space |
| RegistryAuth.ScopeClaimsFrom | src/registry/auth.rs:293-302 | claims of space-free entries have space-free fields |
| RegistryAuth.ClaimTexts | src/registry/auth.rs:293-302 | one text per claim, in order |
| RegistryAuth.ClaimTextFields | src/registry/auth.rs:294-300 | a printable claim's text splits on `:` into its type, name and comma-joined actions |
| RegistryAuth.ScopeClaimsTexts | src/registry/auth.rs:293-302 | the texts of printable claims parse back to those claims |
| RegistryAuth.ParseFormatScope | src/registry/auth.rs:290-305 | parsing a formatted scope gives back its claims (round trip) |
| RegistryAuth.VerifyToken | src/registry/auth.rs:241-261 | a token verifies iff it decodes and nbf <= now <= exp; `Token expired` when exp < now, `Token not yet valid` when nbf > now; the claim is returned unchanged |
| RegistryAuth.Auth.constructor | src/registry/auth.rs:130-135 | a new handler has the configuration and no users |
| RegistryAuth.Auth.AddUser | src/registry/auth.rs:138-161 | the user is inserted (replacing any earlier one) with the hashed password and permissions |
| RegistryAuth.Auth.RemoveUser | src/registry/auth.rs:164-172 | exactly that user is gone |
| RegistryAuth.Auth.VerifyCredentials | src/registry/auth.rs:175-186 | true iff the user exists and the password verifies against the stored hash; an unknown user gives false |
| RegistryAuth.Auth.IsAllowed | src/registry/auth.rs:189-206 | true iff some permission of the user matches the repository (with the matching as written) and lists the action; an unknown user is allowed nothing |
| RegistryAuth.Auth.AllowedIntendedNarrower | src/registry/auth.rs:189-206 | the decision under the corrected matching never allows what `is_allowed` refuses |
| RegistryAuth.Auth.NamespaceGrantLeaks | src/registry/auth.rs:189-206 | a user whose only permission is Pull on `library/*` may pull `library-private/app` under `is_allowed`, but not under the corrected matching |
| RegistryAuth.Auth.TokenFor | src/registry/auth.rs:215-226 | the issued claim names the user, issuer and service, starts and is issued at `now`, expires `token_expiry` later and carries the parsed scope |
| RegistryAuth.Auth.GenerateToken | src/registry/auth.rs:209-238 | both token fields hold the encoded claim and `expires_in` is the configured expiry |
| RegistryAuth.Auth.TokenRoundTrip | src/registry/auth.rs:209-261 | a generated token verifies to its claim at every time up to its expiry and is `Token expired` after |
| RegistryAuth.Auth.WwwAuthenticate | src/registry/auth.rs:264-275 | `Bearer realm="…",service="…"`, followed by `,scope="…"` only when a scope is given |
| RegistryAuth.FormatScope | src/registry/auth.rs:290-305 | a non-empty list of printable claims formats to a scope whose space-separated parts are the claims' texts, in order |
| RegistryAuth.ClaimTextsSpaceFree | src/registry/auth.rs:290-305 | the text of a printable claim holds no space |
| RegistryServer.DefaultConfig | src/registry/server.rs:61-78 | the default registry listens on port 5000 with deletes enabled, authentication off, anonymous pull on and push off, a 4 MiB manifest limit and a 10 GiB layer limit |
| RegistryServer.ValidateManifest | src/registry/server.rs:527-542 | a manifest is refused iff it claims an image-manifest media type and does not decode as one, or an index media type and does not decode as an index; other media types are accepted |
| RegistryServer.Page | src/registry/server.rs:278-297 | filter (names strictly after `last`), sort and truncate (`n`) yields a page: sorted, distinct, after `last`, at most `n`, and every eligible name left off comes after the whole page |
| RegistryServer.Server.constructor | src/registry/server.rs:248-258 | a new server has no upload sessions and an empty storage at the configured path |
| RegistryServer.Server.ListRepositories | src/registry/server.rs:271-298 | the catalog is a page of what the storage lists: sorted, each once, after `last`, at most `n`, continuing where it stops |
| RegistryServer.Server.ListTags | src/registry/server.rs:301-330 | an unknown repository fails with ImageNotFound; otherwise a page of its tags: sorted, each once, after `last`, at most `n` |
| RegistryServer.Server.GetManifest | src/registry/server.rs:338-340 | what the storage resolves the reference to |
| RegistryServer.Server.PutManifest | src/registry/server.rs:343-369 | a body larger than `max_manifest_size` or failing media-type validation is refused and nothing is stored; otherwise the digest of the body is returned, the revision is stored under its hash, the repository is added, a tag reference gets its tag directory and a link to the digest (a digest reference touches neither), the manifest reads back under its reference, and blobs and uploads are unchanged |
| RegistryServer.Server.DeleteManifest | src/registry/server.rs:372-380 | fails with PermissionDenied, changing nothing, iff deletes are disabled; otherwise the reference no longer resolves: a digest removes exactly that revision, a tag exactly its link; repositories, tag directories, blobs and uploads are unchanged |
| RegistryServer.Server.BlobExists | src/registry/server.rs:383-385 | the blob's size iff it exists |
| RegistryServer.Server.GetBlob | src/registry/server.rs:388-390 | the blob's content, or ImageNotFound |
| RegistryServer.Server.DeleteBlob | src/registry/server.rs:393-401 | refused with PermissionDenied and no change when deletes are disabled; otherwise succeeds iff the blob existed, and exactly that blob is gone; uploads and manifests are unchanged |
| RegistryServer.Server.StartUpload | src/registry/server.rs:404-440 | a mount of an existing blob answers with its digest and opens nothing; otherwise exactly one session opens at offset 0 with an empty upload; blobs and manifests are unchanged |
| RegistryServer.Server.GetUploadStatus | src/registry/server.rs:443-450 | an unknown session fails; otherwise its offset, which equals the bytes uploaded so far |
| RegistryServer.Server.UploadChunk | src/registry/server.rs:453-483 | an unknown session fails; a range start other than the offset fails with no change; otherwise the data is appended to that upload alone and its offset grows by the data's length; blobs and manifests are unchanged |
| RegistryServer.Server.CompleteUpload | src/registry/server.rs:486-514 | the final chunk is appended first (refused without a session); a known upload then succeeds iff its content hashes to the given digest, a mismatch failing with InvalidConfig; on success exactly that blob is added and the session and its upload are gone; on failure no blob changes and only the appended chunk remains; manifests are unchanged |
| RegistryServer.Server.CancelUpload | src/registry/server.rs:517-524 | the session and its upload are gone; blobs and manifests are untouched |
| RegistryStorage.Digest | src/registry/storage.rs:236-239 | a digest is `sha256:` followed by the hex hash, and stripping the prefix gives the hash back |
| RegistryStorage.DigestTrimmed | src/registry/storage.rs:196-200 | a digest read back from a link file and trimmed is unchanged |
| RegistryStorage.BlobPath | src/registry/storage.rs:30-33 | `blobs/sha256/<hash>`, the hash being the digest without a leading `sha256:` (a bare digest is used as is) |
| RegistryStorage.ManifestPath | src/registry/storage.rs:41-58 | digest references live under `revisions/sha256/<hash>`, tags under `tags/<ref>/current`, both inside `repositories/<name>/_manifests` |
| RegistryStorage.Sweep | src/registry/storage.rs:447-464 | keeps exactly the blobs whose digest is referenced and reports exactly the digests of the others as deleted |
| RegistryStorage.Storage.constructor | src/registry/storage.rs:19-27 | a new registry has no blobs, repositories, manifests, tags or uploads |
| RegistryStorage.Storage.ManifestOf | src/registry/storage.rs:186-225 | a digest reference resolves iff that revision exists; a tag reference only through its link; a miss is ImageNotFound(`name:reference`) |
| RegistryStorage.Storage.ListRepositories | src/registry/storage.rs:66-126 | each name of the walk as written exactly once: every directory with a `_manifests` entry reached without entering a `_` directory below the top level, and every top-level directory under which nothing is found |
| RegistryStorage.ListedVisible | src/registry/storage.rs:66-126 | when no name has a component after the first starting with `_`, the walk lists exactly the repositories |
| RegistryStorage.ListedHidden | src/registry/storage.rs:107-113 | repository `a/_b` is listed as the bare directory `a` |
| RegistryStorage.Storage.ListTags | src/registry/storage.rs:130-148 | fails with ImageNotFound iff the repository is unknown; otherwise every tag directory exactly once |
| RegistryStorage.Storage.GetManifest | src/registry/storage.rs:186-225 | reads exactly what the reference resolves to |
| RegistryStorage.Storage.PutManifest | src/registry/storage.rs:228-280 | returns `sha256:` plus the hash of the body, stores the revision under that hash, and for a tag reference points the tag's link at the digest; the manifest then reads back as the body |
| RegistryStorage.Storage.DeleteManifest | src/registry/storage.rs:283-306 | a digest removes the revision, a tag only its `current` link; the reference no longer resolves, yet the tag is still listed |
| RegistryStorage.Storage.BlobOf | src/registry/storage.rs:328-333 | a blob is found iff its path exists, else ImageNotFound(digest) |
| RegistryStorage.Storage.BlobExists | src/registry/storage.rs:309-351 | succeeds iff the blob exists, else ImageNotFound |
| RegistryStorage.Storage.GetBlobSize | src/registry/storage.rs:319-325 | the blob's length, or ImageNotFound |
| RegistryStorage.Storage.GetBlob | src/registry/storage.rs:328-333 | the blob's content, or ImageNotFound |
| RegistryStorage.Storage.DeleteBlob | src/registry/storage.rs:336-341 | succeeds iff the blob existed; afterwards it is gone and nothing else changed |
| RegistryStorage.Storage.CreateUpload | src/registry/storage.rs:355-360 | the session starts with empty data |
| RegistryStorage.Storage.AppendUpload | src/registry/storage.rs:363-372 | an unknown session fails with `Upload <uuid> not found`; otherwise the data is appended |
| RegistryStorage.Storage.CompleteUpload | src/registry/storage.rs:375-410 | unknown session: not found; a known upload succeeds iff its content hashes to the expected digest, a mismatch failing with InvalidConfig and moving no blob; on success the upload becomes the blob of that digest and the session goes |
| RegistryStorage.Storage.DeleteUpload | src/registry/storage.rs:413-419 | the session goes, if it existed |
| RegistryStorage.Storage.GarbageCollect | src/registry/storage.rs:422-467 | deletes exactly the blobs not referenced (config or layer) by a manifest some tag of a listed repository resolves to, and returns their digests; manifests, tags and uploads are untouched |
| RegistryStorage.Storage.GarbageCollectAll | src/registry/storage.rs:422-467 | collection over every repository: deletes exactly the blobs no tag of any repository reaches, returns their digests, and leaves manifests, tags and uploads untouched |
| RegistryStorage.Storage.ListedReferencedAll | src/registry/storage.rs:422-445 | when no name has a component after the first starting with `_`, the listed repositories reach the same blobs as all repositories |
| RegistryStorage.Storage.GarbageCollectMissesHidden | src/registry/storage.rs:107-113 | with only repository `a/_b` tagged `t`, the tag reaches blobs that must be kept, yet the listed repositories reach none |
| RegistryStorage.Storage.CollectReferenced | src/registry/storage.rs:424-445 | the first pass collects exactly the digests reachable from every tag of every repository in the list it is given |
| RegistryStorage.Storage.CollectRepository | src/registry/storage.rs:428-444 | the digests reachable from one repository's tags |
| SwarmCluster.GenerateToken | src/swarm/cluster.rs:588-601 | a join token starts with `SWMTKN-1-` and has a fixed length: prefix, 8 id characters, type, 25 random characters and three dashes |
| SwarmCluster.GenerateUnlockKey | src/swarm/cluster.rs:604-607 | an unlock key is `SWMKEY-1-` followed by the random text |
| SwarmCluster.ExtractClusterId | src/swarm/cluster.rs:610-618 | the result is the dash-free text between the prefix and the next dash; `Invalid token format` only when the prefix is missing or no dash follows it |
| SwarmCluster.JoinRole | src/swarm/cluster.rs:255-263 | refused iff the token does not contain `SWMTKN-1-`; the role is manager iff the token contains `-manager-` |
| SwarmCluster.ExtractGenerated | src/swarm/cluster.rs:588-618 | the cluster id read back from a generated token is the first 8 characters of the id it was made from |
| SwarmCluster.JoinManagerToken | src/swarm/cluster.rs:255-263 | a generated manager token joins as a manager |
| SwarmCluster.JoinWorkerToken | src/swarm/cluster.rs:255-263 | a generated worker token (dash-free id and random parts) joins as a worker |
| SwarmCluster.SwarmCluster.Init | src/swarm/cluster.rs:214-246 | an Active cluster with freshly generated worker and manager tokens, an unlock key iff auto-lock is on, no services, and the local node as its only node: a Ready manager and the leader |
| SwarmCluster.SwarmCluster.Joined | src/swarm/cluster.rs:268-293 | the joined cluster has the token's id, default configuration with the given addresses, no tokens or key, only the local node in the token's role, no services, and creation and update times equal to now |
| SwarmCluster.SwarmCluster.Leave | src/swarm/cluster.rs:297-318 | with at most one Ready manager and no force: `last manager` and no change; otherwise the cluster becomes Inactive; nothing else changes (config, tokens, key, nodes, services, update time) |
| SwarmCluster.SwarmCluster.JoinToken | src/swarm/cluster.rs:330-336 | the worker token for the worker type and the manager token for the manager type |
| SwarmCluster.SwarmCluster.RotateJoinToken | src/swarm/cluster.rs:338-349 | a freshly generated token of that type replaces the old one and is returned; the other type's token is kept; a rotated manager token joins as a manager, and the cluster id read back from the new token is the id's first 8 characters when they hold no dash |
| SwarmCluster.SwarmCluster.RotateUnlockKey | src/swarm/cluster.rs:357-362 | a fresh unlock key is installed (enabling locking) and returned; state, nodes and services unchanged |
| SwarmCluster.SwarmCluster.Lock | src/swarm/cluster.rs:365-371 | without an unlock key: `Auto-lock is not enabled`, no change; otherwise the cluster becomes Locked; nothing else changes |
| SwarmCluster.SwarmCluster.Unlock | src/swarm/cluster.rs:374-385 | succeeds (making the cluster Active) iff the key is the stored unlock key; `not locked` without a key, `Invalid unlock key` for another; only the state ever changes |
| SwarmCluster.SwarmCluster.AddNode | src/swarm/cluster.rs:388-396 | a fresh copy of the node is stored (or replaces the old one) under its id, every other node kept; services, state, configuration, tokens, key and update time unchanged |
| SwarmCluster.SwarmCluster.RemoveNode | src/swarm/cluster.rs:399-417 | unknown: NodeNotFound; a Ready node without force: `Cannot remove active node`; otherwise exactly that node goes; services, configuration, tokens, key and update time unchanged |
| SwarmCluster.SwarmCluster.ListNodes | src/swarm/cluster.rs:420-427 | one fresh copy of every node, each node exactly once |
| SwarmCluster.SwarmCluster.GetNode | src/swarm/cluster.rs:430-440 | a fresh copy of the stored node, or NodeNotFound |
| SwarmCluster.SwarmCluster.UpdateNode | src/swarm/cluster.rs:443-464 | unknown: NodeNotFound; otherwise role, availability and labels take the values present in the update; state, manager status, version and update time untouched, and no node is added or removed |
| SwarmCluster.SwarmCluster.CreateService | src/swarm/cluster.rs:467-477 | a fresh copy of the service is stored under its id and the id returned; nodes, configuration, tokens, key and update time unchanged |
| SwarmCluster.SwarmCluster.ListServices | src/swarm/cluster.rs:480-487 | one fresh copy of every service, each service exactly once |
| SwarmCluster.SwarmCluster.FindServiceByName | src/swarm/cluster.rs:500-504 | a stored service with that name, and none iff no service has it |
| SwarmCluster.SwarmCluster.GetService | src/swarm/cluster.rs:490-509 | a fresh copy of the service with that id, else of a service with that name, else ServiceNotFound |
| SwarmCluster.SwarmCluster.RemoveService | src/swarm/cluster.rs:512-535 | by id first, then one service with that name, exactly it removed; else ServiceNotFound and no change; nodes, configuration, tokens, key and update time unchanged |
| SwarmCluster.SwarmCluster.Update | src/swarm/cluster.rs:538-542 | the configuration is replaced; state, nodes, services, tokens and key unchanged |
| SwarmCluster.SwarmCluster.Info | src/swarm/cluster.rs:545-565 | counts of nodes, managers in any state, and services; never more managers than nodes |
| SwarmCluster.Join | src/swarm/cluster.rs:249-294 | no `SWMTKN-1-` anywhere: `Invalid join token`; no id after a leading prefix: `Invalid token format`; otherwise a fresh Active cluster with the token's id, the default configuration with the given addresses, no tokens or unlock key, no services, created and updated now, and the local node alone in the token's role |
| SwarmCluster.MentionNotEnough | src/swarm/cluster.rs:255-263 | a token mentioning the prefix away from its start passes the role check yet fails with `Invalid token format` |
| SwarmConfig.NewConfig | src/swarm/config.rs:60-71 | a new config carries the spec, version 1, and equal created/updated times |
| SwarmConfig.UpdateConfig | src/swarm/config.rs:74-89 | refused iff the data would change (`cannot be modified after creation`); otherwise the spec is replaced, the version rises by one, id and creation time are kept |
| SwarmConfig.UpdateChecked | src/swarm/config.rs:238-247 | a stale expected version is `version mismatch: expected <v>, got <w>`; a matching one defers to the config's own update |
| SwarmConfig.UpdateThenStale | src/swarm/config.rs:238-247 | once an update succeeds, repeating it with the same expected version is refused (optimistic locking) |
| SwarmConfig.UpdateChain | src/swarm/config.rs:238-247 | data-preserving updates chain: each bumps the version to the next expected one and keeps the data |
| SwarmConfig.LabelFilterForms | src/swarm/config.rs:200-209 | a bare key filter matches iff the key is present; `key=value` matches iff the key maps to that value |
| SwarmConfig.FindCharFirst | src/swarm/config.rs:202 | splitting once at a character splits at its first occurrence |
| SwarmConfig.ResolvesUnique | src/swarm/config.rs:159-181 | while names are unique, an id-or-name picks at most one config |
| SwarmConfig.UpdateCanShareName | src/swarm/config.rs:217-250 | update does not re-check names: renaming to another config's name leaves two configs with one name |
| SwarmConfig.ApplyFilters | src/swarm/config.rs:192-212 | keeps exactly the configs matching every filter present (id prefix, exact name, all labels), never more entries than it was given |
| SwarmConfig.ConfigManager.constructor | src/swarm/config.rs:129-133 | a new manager holds no config |
| SwarmConfig.ConfigManager.FindByName | src/swarm/config.rs:172-176 | returns a stored config with that name, and none iff no config has it |
| SwarmConfig.ConfigManager.Create | src/swarm/config.rs:136-156 | a taken name is `already exists` with no change; otherwise the config is stored under the new id, and names stay unique |
| SwarmConfig.ConfigManager.Get | src/swarm/config.rs:159-181 | found iff the argument is an id or a name in use, then the config it resolves to; else `Config not found` |
| SwarmConfig.ConfigManager.Values | src/swarm/config.rs:190 | every stored config, as many as there are |
| SwarmConfig.ConfigManager.List | src/swarm/config.rs:184-215 | exactly the stored configs that pass the filters; without filters, as many as `count`, and never more than `count` |
| SwarmConfig.ConfigManager.Update | src/swarm/config.rs:217-250 | unknown: `Config not found`; otherwise the resolved config alone takes the checked update, or nothing changes on its error |
| SwarmConfig.ConfigManager.Remove | src/swarm/config.rs:253-279 | unknown: `Config not found`; otherwise exactly the resolved config goes |
| SwarmConfig.ConfigManager.Count | src/swarm/config.rs:282-288 | the number of stored config ids |
| SwarmNode.Node.NewLocal | src/swarm/node.rs:81-133 | a Ready, `active`, unlabelled node at 127.0.0.1, version 1; a manager starts as the reachable leader at `127.0.0.1:2377`, a worker without manager status; it is schedulable, and leader iff manager |
| SwarmNode.Node.Clone | src/swarm/node.rs:49-50 | a copy has every field of the original |
| SwarmNode.Node.Promote | src/swarm/node.rs:136-145 | always succeeds; the node becomes a manager, reachable at its address on port 2377, not the leader; state, availability and labels unchanged |
| SwarmNode.Node.Demote | src/swarm/node.rs:148-153 | always succeeds; the node becomes a worker with no manager status, hence neither manager nor leader |
| SwarmNode.Node.SetAvailability | src/swarm/node.rs:156-194 | any text is stored and nothing else but the timestamp changes; the node is schedulable afterwards iff it is ready and the text is exactly `active` |
| SwarmNode.Node.AddLabel | src/swarm/node.rs:162-165 | inserts or overwrites one label; nothing else but the timestamp changes |
| SwarmNode.Node.RemoveLabel | src/swarm/node.rs:168-171 | removes one label (present or not); nothing else but the timestamp changes |
| SwarmNode.AddThenRemoveLabel | src/swarm/node.rs:162-171 | adding a label and removing it restores the other labels and leaves the key absent |
| SwarmNode.Node.IsManager | src/swarm/node.rs:174-176 | a node is a manager iff its role is not Worker |
| SwarmNode.Node.IsLeader | src/swarm/node.rs:179-184 | only a node with a manager status can be leader; without one it is not |
| SwarmNode.Node.IsReady | src/swarm/node.rs:187-189 | ready iff the state is none of Unknown, Down and Disconnected |
| SwarmNode.Node.IsAvailable | src/swarm/node.rs:192-194 | an available node is ready; a ready node is available iff its availability is exactly `active` |
| SwarmService.ReplicasOf | src/swarm/service.rs:98-113 | a replicated mode reports its count, a replicated job its completion target, a global service or global job 0, and a service with no mode 1 |
| SwarmService.Scaled | src/swarm/service.rs:85-91 | only a replicated mode takes the new count; every other mode, and no mode, is unchanged |
| SwarmService.ScaleReplicas | src/swarm/service.rs:85-150 | after scaling, a replicated service reports the new count and any other mode its old one; the default spec is replicated with 1 replica |
| SwarmService.ScaleTwice | src/swarm/service.rs:85-94 | scaling twice equals scaling once to the last count |
| SwarmService.Service.constructor | src/swarm/service.rs:33-47 | a new service holds the spec, no previous spec, no update status, version 1 |
| SwarmService.Service.Clone | src/swarm/service.rs:11-12 | a copy has every field of the original |
| SwarmService.Service.Update | src/swarm/service.rs:50-61 | the old spec becomes the previous one, the new spec takes over, the version rises by one, status `updating` |
| SwarmService.Service.Rollback | src/swarm/service.rs:64-82 | without a previous spec: `No previous specification to rollback to` and nothing changes; otherwise the two specs swap, the version rises by one, status `rollback_started` |
| SwarmService.Service.Replicas | src/swarm/service.rs:98-113 | the service's replica count: its replicated count, its job's completion target, 0 when global, 1 when no mode is set |
| SwarmService.Service.Scale | src/swarm/service.rs:85-114 | a replicated service reports the new count, others keep theirs; the version rises by one whatever the mode |
| SwarmTask.TerminalStates | src/swarm/task.rs:141-150 | terminal iff Complete, Failed, Rejected, Remove or Orphaned; Shutdown, Running and New are not terminal |
| SwarmTask.Task.constructor | src/swarm/task.rs:74-92 | a new task is unassigned, in state New, desired Running, at version 1, with equal created/updated times |
| SwarmTask.Task.Assign | src/swarm/task.rs:95-99 | the node is recorded and the state becomes Assigned; desired state and version unchanged |
| SwarmTask.Task.Start | src/swarm/task.rs:102-105 | the state becomes Starting and nothing else but the timestamp changes |
| SwarmTask.Task.SetRunning | src/swarm/task.rs:108-116 | the state becomes Running with a fresh container status (no pid, no exit code); it is running and not terminal |
| SwarmTask.Task.Complete | src/swarm/task.rs:119-125 | the state becomes Complete (terminal); the exit code is recorded only when a container status exists |
| SwarmTask.Task.Fail | src/swarm/task.rs:128-132 | the state becomes Failed (terminal) with the error recorded |
| SwarmTask.Task.Shutdown | src/swarm/task.rs:135-138 | only the desired state (Shutdown) and the timestamp change; the observed state is untouched |
| SwarmTask.Task.IsTerminal | src/swarm/task.rs:141-150 | a task is terminal iff its state is Complete, Failed, Rejected, Remove or Orphaned |
| SwarmTask.Task.IsRunning | src/swarm/task.rs:153-155 | a running task is never in a terminal state |
| Volume.JoinPath | src/storage/volume.rs:73 | an absolute name replaces the base; otherwise the mount point starts with the base, ends with the name and has a separator between them |
| Volume.NewVolume | src/storage/volume.rs:70-82 | a local-scope, local-driver volume mounted at base joined with the name, with no options, labels, status or usage data |
| Volume.AddRef | src/storage/volume.rs:284-292 | the count rises by one (absent usage data becomes a count of 1); nothing else in the volume changes |
| Volume.DropRef | src/storage/volume.rs:308-310 | the count falls by one and never below zero; a volume without usage data is left alone; nothing else changes |
| Volume.AddDropRef | src/storage/volume.rs:274-313 | taking a reference and dropping it restores the count |
| Volume.ReferencedIsInUse | src/storage/volume.rs:226-292 | a volume just referenced is refused by non-forced remove and kept by prune |
| Volume.UnusedIffNotInUse | src/storage/volume.rs:226-259 | with non-negative counts, prune's filter selects exactly the volumes a non-forced remove accepts |
| Volume.VolumeManager.constructor | src/storage/volume.rs:141-148 | a new manager holds no volume and keeps the base path |
| Volume.VolumeManager.Create | src/storage/volume.rs:151-188 | a name already present is `already exists` with no change; otherwise a volume named as given (or by the first 12 hex digits of the uuid when empty) is stored under that name with the given driver, options and labels |
| Volume.VolumeManager.Get | src/storage/volume.rs:191-201 | found iff the name is stored, with that volume; else VolumeNotFound(name) |
| Volume.VolumeManager.List | src/storage/volume.rs:204-211 | every volume exactly once |
| Volume.VolumeManager.Remove | src/storage/volume.rs:214-242 | unknown: VolumeNotFound; in use without force: `in use by <n> container(s)` with no change; otherwise the volume goes |
| Volume.VolumeManager.Prune | src/storage/volume.rs:245-271 | removes exactly the volumes with no usage data or a zero count, returns their names once each, and keeps only volumes in use |
| Volume.VolumeManager.AddReference | src/storage/volume.rs:274-295 | unknown: VolumeNotFound; otherwise only that volume's count rises by one |
| Volume.VolumeManager.RemoveReference | src/storage/volume.rs:298-313 | unknown: VolumeNotFound; otherwise only that volume's count falls, saturating at zero |
| WasmCompose.Parse | rune-wasm/src/compose/mod.rs:54-60 | a decoded document is returned as is; a decoding failure becomes an error object with the decoder's message |
| WasmCompose.WasmGraph | rune-wasm/src/compose/mod.rs:79-85 | the graph has exactly the services as nodes, each with its listed dependencies |
| WasmCompose.MarkedFinish | rune-wasm/src/compose/mod.rs:86 | finishing a visit moves its name from the in-progress stack to the end of the order |
| WasmCompose.MarkedStart | rune-wasm/src/compose/mod.rs:75-78 | starting a visit marks the name and pushes it on the in-progress stack |
| WasmCompose.AlreadyVisited | rune-wasm/src/compose/mod.rs:75-77 | a visited name met again is already placed unless the graph has a cycle |
| WasmCompose.FinishVisit | rune-wasm/src/compose/mod.rs:79-87 | once its dependencies are visited, the name is placed after them and the order stays sound |
| WasmCompose.Visit | rune-wasm/src/compose/mod.rs:69-87 | afterwards the name is visited, the order only grows, the visited names are those placed and those in progress; without a cycle the name is placed after all its dependencies |
| WasmCompose.RemoveOneCard | rune-wasm/src/compose/mod.rs:78 | marking one more name leaves one fewer to visit (the recursion's measure) |
| WasmCompose.StartVisit | rune-wasm/src/compose/mod.rs:75-78 | marking an unvisited name keeps the bookkeeping and leaves one name fewer to visit |
| WasmCompose.VisitDepsStep | rune-wasm/src/compose/mod.rs:81-83 | each iteration over the dependencies keeps the earlier ones placed |
| WasmCompose.VisitDeps | rune-wasm/src/compose/mod.rs:79-85 | visiting each dependency in turn keeps the bookkeeping and, without a cycle, places all of them |
| WasmCompose.GetStartOrder | rune-wasm/src/compose/mod.rs:63-99 | an error object iff decoding fails; otherwise every service listed once, and without a cycle each name after everything it depends on; a cycle still gives an order, not an error |
| WasmCompose.UnknownDeps | rune-wasm/src/compose/mod.rs:113-122 | at most one error per dependency |
| WasmCompose.UnknownDepsMembers | rune-wasm/src/compose/mod.rs:113-122 | an error is reported for exactly the dependencies that are not services |
| WasmCompose.ServiceErrorsEmpty | rune-wasm/src/compose/mod.rs:109-122 | a service draws no error iff it has an image or build and all its dependencies are services |
| WasmCompose.ErrorsOfMembers | rune-wasm/src/compose/mod.rs:108-123 | an error is collected iff one of the visited services draws it |
| WasmCompose.ErrorsOfEmpty | rune-wasm/src/compose/mod.rs:108-123 | no error is collected iff no visited service is invalid |
| WasmCompose.UnknownDepsSnoc | rune-wasm/src/compose/mod.rs:114 | one more dependency adds its error, if any, at the end |
| WasmCompose.ErrorsOfSnoc | rune-wasm/src/compose/mod.rs:108 | one more service adds its errors at the end |
| WasmCompose.PushUnknownDeps | rune-wasm/src/compose/mod.rs:113-122 | the inner loop appends exactly the unknown-dependency errors |
| WasmCompose.ValidateEnd | rune-wasm/src/compose/mod.rs:108-123 | the errors gathered over all services are exactly those they draw, and none iff no service is invalid |
| WasmCompose.CheckServices | rune-wasm/src/compose/mod.rs:108-123 | no error iff every service is valid; each error is one some service draws, and every such error is reported |
| WasmCompose.Validate | rune-wasm/src/compose/mod.rs:102-134 | valid iff no error; warnings are always empty; a decoding failure is the only error then; otherwise valid iff every service is valid, with exactly the services' errors |

## Left out

- Filesystem, socket and HTTP I/O are not modelled. This covers the request routing of `src/daemon/api.rs` around its helpers, the registry's file reads and writes (modelled as maps), directory creation in `VolumeManager::new`, and the browser's local storage (`save_to_local_storage`, `load_from_local_storage`).
- System calls are not modelled: `unshare`, `sethostname`, user mappings and the cgroup and mount code.
- `RwLock`/`Arc` locking is not modelled. Every manager is a sequential class, so concurrent interleavings are not captured.
- JSON, YAML and base64 encoding and decoding are not modelled, because they are library code. Operations receive the decoded value, or a decoder as a parameter, and an undecodable input is a distinct case.
- SHA-256, bcrypt, uuid generation, random numbers and the clock are parameters or fixed functions, because their results cannot be predicted. Digests are never computed.
- UTF-8 decoding and encoding of file contents are functions passed in. Properties that need a round trip state it as a precondition of the lemma.
- Floating point is not modelled: the `cpus` resource limit and the random-number scaling in `generate_id`.
- The size of a volume (a directory walk) is not modelled. Neither are the base64 and UTF-8 views of a swarm config's data (`get_data`, `get_data_string`), nor `get_manifest_info` (file metadata).
- NetworkConfig.Allocate: requires that fewer than 65 536 addresses are taken, because otherwise the source's search loops forever.
- NetworkBridge.Connect: requires a free address for the same reason.
- NetworkBridge.NetworkManager.ConnectContainer: requires a free address for the same reason.
- NetworkBridge.NetworkManager.constructor: takes the three default networks' ids as parameters. It requires them to be distinct, as uuids are in practice.
- SwarmCluster.SwarmCluster.RotateJoinToken: requires a cluster id of at least eight characters, where the source's slice would panic. It also requires a random part of at least 25 characters, which a uuid without dashes always has.
- SwarmCluster.SwarmCluster.Init: has the same requirements as RotateJoinToken.
- ComposeOrchestrator.ServiceToContainerConfig: requires a uuid with at least twelve hex digits, because the source slices its first twelve.
- Volume.VolumeManager.Create: requires the same of its uuid text.
- Upper-casing (`Common.ToUpper`) maps only the ASCII letters `a`-`z`. Rust's `to_uppercase` follows the full Unicode case mapping, under which a few other letters become ASCII: `ſ` becomes `S`, dotless `ı` becomes `I`, `ß` becomes `SS`, and ligatures such as `ﬁ` and `ﬆ` become `FI` and `ST`. Other non-ASCII letters become non-ASCII capitals. Whitespace is modelled in full: `Common.IsSpace` is Unicode White_Space, as `char::is_whitespace` and `trim` use it. The members below inherit the upper-casing gap.
- ImageBuilder.ParseInstruction: a keyword spelled with such letters, like `ſhell`, is an unknown instruction here and SHELL in the source. The keyword quoted in an `Unknown instruction` message keeps its non-ASCII letters as written.
- ImageBuilder.ParseFrom: recognises `AS` in ASCII case only.
- ImageBuilder.HealthcheckArgs: recognises `NONE` in ASCII case only.
- BuilderWasmParser.ParseInstruction: upper-cases its keyword in ASCII only, as ImageBuilder.ParseInstruction does.
- LspSyntax.FromStr: upper-cases in ASCII only, so `ſhell` is Unknown here and Shell in the source.
- LspSyntax.RunefileParser.ParseLine: classifies its keyword through LspSyntax.FromStr and inherits its ASCII upper-casing.
- LspSyntax.FirstAs: recognises `AS` in ASCII case only.
- LspSyntax.CheckHealthcheck: upper-cases the arguments in ASCII only before looking for `NONE` and `CMD`.
- LspWasmParser.RunefileParser.ParseInstruction: upper-cases its keyword in ASCII only.
- LspWasmParser.RunefileParser.Classify: upper-cases its keyword in ASCII only.
- RegistryStorage.Listed: models repository names as `/`-separated components. Empty components, `.` and `..`, a leading `/` and tag names containing `/` are not modelled.
- RegistryStorage.Storage.ListRepositories: the walk is modelled by the set of names it returns. The order of `read_dir` is not modelled; the names come out in some duplicate-free order.
- ImageBuilder.CopyArgsRendered: covers flags followed by non-empty text. Flags followed by nothing are left to ImageBuilder.CopyFlags' own contract.

## Behaviour of the code

These behaviours of the code may surprise a reader. The model keeps each of them as written.

**Images and the registry**
- Tagging an image with a tag that already names another image retargets the tag. The tag is not removed from the other image's `repo_tags`, so a later removal of that image deletes the tag that now points at the new image.
- Deleting a manifest by tag removes only the tag's current link, so the tag is still listed afterwards.
- The repository listing skips every directory below the top level whose name starts with `_`, so a repository such as `a/_b` is listed as the bare directory `a` (`RegistryStorage.ListedHidden`). Garbage collection goes through that listing (see Findings).

**Networks**
- Connecting a container that is already connected to a bridge network overwrites its endpoint. The old address stays allocated.
- After allocating the address ending in 255, the next address to try ends in 0 in the same third octet.
- A network built with `.subnet(x)` keeps the default pool first, so its bridge still allocates from `172.17.0.0/16` (`NetworkBridge.SubnetKeepsDefaultPool`).

**Swarm**
- `Config::update` does not re-check name uniqueness.
- `join` checks no secret: any `SWMTKN-1-<id>-…` token joins, and the role is read by `contains("-manager-")` (`SwarmCluster.Join`, `SwarmCluster.JoinRole`).
- `unlock` does not consult the cluster state.
- Changing a node's role through `update_node` keeps its manager status.

**Compose**
- A bare `$VAR` is replaced wherever the variable's name is a prefix of the following identifier characters (`ComposeParser.BarePrefixSubstituted`).
- The browser's `getStartOrder` returns an order, not an error, when dependencies form a cycle. The daemon's orchestrator reports the cycle.

**Browser filesystem**
- `list_dir` lists a child once for every stored path below it, so a directory can appear several times.
- `get_size` truncates the length to 32 bits.

**Language servers**
- In the daemon's checker, a joined continuation line is reported at the physical line that ends it.
- In the daemon's checker, parser directives are recognised only on line 0 or before any instruction.
- The browser language server counts lines from 0 and reports a joined line at its start line.
- The browser language server counts comments as content for the missing-FROM check. It says "start with" but accepts a FROM anywhere.
- In the browser language server, a comment inside a continuation is recorded and does not end the continuation, and an unfinished continuation at the end of the text is dropped.
- In the browser language server, a port number may carry a leading `+`, and the diagnostic line number is cut to 32 bits.

**Builders and the daemon API**
- The browser builder does not know ONBUILD.
- In the browser builder, the check for a file without stages can never fire once parsing succeeded (`BuilderWasmParser.ParsedHasStage`).
- In both builders, an ENV value may begin with a space: it is trimmed before its quotes are removed.
- The daemon's percent-decoder accepts a `+` sign inside a `%XX` escape, as Rust's integer parser does.

## Findings

| source | as written | input that shows it | evidently intended | confidence | as-written member | corrected member |
|---|---|---|---|---|---|---|
| src/registry/auth.rs:313-316 | a pattern `ns/*` matches every repository whose name starts with `ns`, because the `/` is dropped with the `*` | pattern `library/*` and repository `library-private/app`: permitted | `ns/*` matches only repositories inside the namespace `ns/` | high (not executed) | RegistryAuth.NamespacePatternLeaks | RegistryAuth.MatchesRepositorySpec |
| src/registry/storage.rs:107-113 | garbage collection finds tags through `list_repositories`, whose nested walk skips every directory starting with `_`, so a repository below such a directory contributes no references | repository `a/_b` with tag `t` whose manifest references blob `b`: `b` is deleted | keep every blob reachable from any repository's tags | medium (not executed) | RegistryStorage.Storage.GarbageCollectMissesHidden | RegistryStorage.Storage.GarbageCollectAll |
