# Rockslide: a verified model of push, store, run and route

Rockslide is a container registry that runs what is pushed to it. A manifest put under the tag `prod`
is stored, pulled by podman, started as a container, and published by a reverse proxy under the
container's path or domain. This project models that path in Dafny and proves what it promises.

`dafny verify dfyconfig.toml` checks everything.

## How it is laid out

| files | part |
|---|---|
| `Prelude`, `Texts`, `Paths` | bytes, options, the text operations (splitting at slashes, searching, lower case), and paths as texts with the directory they lead to |
| `Digests` | digests, references, and their text forms |
| `Disk`, `Layout`, `Effects` | a directory tree with symbolic links and open files, and the store's paths in it |
| `Machine` | the registry store as a step machine: any number of clients, each cut at its await points and system calls |
| `Invariant`, `Refinement`, `ManifestTheorems`, `BlobTheorems`, `Replies`, `Completion` | what every interleaving keeps, the atomic registry it refines, and what follows for manifests, blobs, replies, and a put left alone |
| `Storage` | the store as an object that changes in place, with the read, hash and chunk loops |
| `Routing`, `TableLock` | the two indexes, the decision for a request, and the table behind its reader-writer lock |
| `ContainerNames`, `Configs`, `Deployment`, `Hooks`, `Orchestrator` | identities carried through strings, configuration files, the podman commands of one push after another and of several at once, and the objects that tie them together |
| `Volumes`, `BasicAuth` | declared volume paths, and base64 credentials |

The store's `put_manifest`, `get_manifest`, upload and finalize operations appear twice, for two different
statements. In `Machine` each is a program counter whose steps interleave with all others. In `Storage`
it is a method of one caller, whose contract states the whole new tree and every error case. Both are made
of the same system calls in `Disk`.

## Main results

- **Store.** In every state that any schedule of any number of clients reaches from an empty store, an
  installed tag resolves through its relative link to an existing manifest whose bytes hash to its name and
  parse, unless that very manifest is being rewritten (`InstalledTagsResolve`). Every run is a run of an
  atomic registry made of two maps (`RunRefines`), reads included (`ReadsAreAtomic`), and each reply is
  given at the step that makes it true (`RunServesRequest`). The exception is real: a put of a manifest that
  is there already can make a reader of its tag see nothing (`ReadsCanTear`).
- **Blobs.** Without a chunk write that overlaps a finalize of the same upload, each blob hashes to its name,
  is all the bytes appended to its upload in order, and never changes (`BlobsAreWhatWasSent`,
  `BlobsNeverChange`). That condition is exact for one append (`AppendKeepsBlobsExactly`), and a schedule
  that violates it does change a blob (`LateChunkChangesABlob`).
- **Routes.** Looking a request up in the built table is scanning the container list (`RoutingIsScanning`).
  The destination built for a request by path gives back, behind the script name, the request path with runs of
  slashes collapsed, except that a bare location shows a slash it did not have; exactly when is
  `ShownPathExactly`. For a recipient that resolves dot segments, exactly when is `ResolvedPathExactly`. Under any
  interleaving with refreshes each answer comes from one snapshot (`AnswersComeFromOneSnapshot`), and a refresh is
  sure to stand exactly when no other one that would build a different table is still building when it begins
  (`NewestStandsExactly`); those that wait for the lock already are served before it.
- **Deployment.** Over any run of pushes with podman commands failing anywhere, no container but the current
  production manifest runs for a location, unless the last removal failed without effect or another location
  of the same container name has taken it (`RunKeepsUpToDate`). Exactly the locations that own their container
  name among the ones a route accepts are safe from the latter, besides those for which nothing is ever started
  (`UpToDateInEveryRun`). With several hooks at once, a push can rely on
  its own manifest exactly when no other hook of that name has a different image pulled and not yet started, or
  is of another location (`PushStandsExactly`).
- **Run and route.** After a successful push and a faithful listing, a request below the location is proxied to
  its container exactly when the repository survives its container name and does not begin with `_rockslide`
  (`PushedContainerIsReached`). Podman gets what the registry holds under the reference that the image URL names, and
  the URL names the pushed one exactly for names without slashes (`ImageUrlNames`). A refresh serves what runs, or
  changes nothing (`RefreshServesWhatRuns`). Who is not authorized learns nothing of a configuration
  (`RepliesExactly`); after any run of requests it reads as it was last stored (`GetAfterRun`). A configuration that
  was put is served by exactly the containers it is for (`PutConfigIsServed`), and its file is below the configuration directory exactly when the names do not climb
  out of it (`PathStaysBelowExactly`).
- **Codecs.** Container names, configuration URLs, digests, references, base64 and credentials, each with
  the exact condition under which they undo each other.

## Where the code differs from what is said about it

- `README.md:44` reserves the bare domain for an image named `index`. `src/reverse_proxy.rs:125-129` does not
  look at the image name; the last container with that repository wins, and so it does here.
- `image_tag` keeps the colon (`src/container_orchestrator.rs:475-478`), so a recovered tag is `:prod` and never
  equals `prod`: `synchronize_all` restarts nothing (`RecoveredTagKeepsColon`, `SynchronizeAll`). Configuration
  paths still agree, because the colon is trimmed again at `src/registry/storage.rs:98` (`ProductionIsRecovered`).
- The comment at `src/registry/storage.rs:20` says 1 MiB; the constant is 1 GiB, and the model has the constant.
- `put_manifest` checks nothing about blobs (`src/registry/storage.rs:483`), and finalizing takes no lock
  (`src/registry/storage.rs:415`). Neither is claimed.
- The count in a chunk reply is of that request only (`src/registry.rs:358`).
- Two refreshes may be installed in the opposite order of their snapshots (`OlderSnapshotCanWin`), and two hooks
  of one location may leave the older image running (`OlderPushCanWin`). When they cannot is `NewestStandsExactly`
  and `PushStandsExactly`.
- Different locations may claim one container name, `a/b---c` and `a---b/c` for instance. Pushing the second then
  removes and replaces the container of the first, with every command succeeding (`RivalReplaces`).
- A configuration URL may name `.` and `..`: `a/.` and `./a` are one file (`DotsShareAFile`), and some names lead out
  of the configuration directory (`PathStaysBelowExactly`).

## Assumptions

- SHA-256, the manifest parser and the TOML reader and writer are arbitrary functions, given as parameters.
  Collision-freeness is assumed only of the manifests whose writing began in the run at hand, and only where
  it is needed. That reader and writer agree on a configuration is a condition in `SavedIsLoaded`, not an
  assumption of the model.
- Repository, image, tag and upload names given to the store are single path components: not empty, not `.` or `..`,
  no slash. Configuration URLs and recovered tags are not so restricted; their paths are followed to where they lead.
- UUIDs drawn for uploads are never drawn twice. UUIDs drawn for temporary tags may be anything, and a clash
  is an I/O error as in the code.
- A text is a sequence of characters, one for each byte of its UTF-8 form; lower case is that of ASCII letters.
- Podman pulls an image that is missing when a container is started from it, since `src/podman.rs` names no pull
  policy. The routing table's lock is granted in the order it is asked for.
- What podman, the file system and other processes answer is a parameter: outcomes of commands, listings,
  which files are there and readable, failed operations, how many bytes one call moves.
- Nothing but the store changes its directory.

## Model

| member | source | states |
|---|---|---|
| `Layout.LinkLands` | src/registry/storage.rs:300-332 | From a tag's own directory the relative link leads exactly to `manifests/<name>`, for all single-component names |
| `Layout.LinkLandsExactly` | src/registry/storage.rs:300-339 | The link text reaches the manifest from a directory if and only if that directory is two levels below `tags` |
| `Layout.LookupTag` | src/registry/storage.rs:326-339 | Opening a tag path resolves to the manifest its link names, and to nothing if there is no tag |
| `Layout.TagPathInjective` | src/registry/storage.rs:334-339 | Two locations and tags have the same path only if they are the same |
| `Layout.FreshIsWellFormed` | src/registry/storage.rs:287-318 | The four directories made at start-up form a well-formed store |
| `Invariant.StepKeepsBase` | src/registry/storage.rs:348-515 | Every step of every client keeps the shape of the store, what each client has open, and that an upload's file is what was appended to it; nothing installed disappears |
| `Invariant.RunKeepsBase` | src/registry/storage.rs:348-515 | The same over every schedule of any number of clients |
| `Refinement.StepRefines` | src/registry/storage.rs:462-515 | Every step of the store is a step of the atomic registry: a manifest is stored when its write begins, a tag moves at the rename, a read is decided at its open |
| `Refinement.RunRefines` | src/registry/storage.rs:462-515 | Every run shows a trace the atomic registry accepts and ends in a state that refines it |
| `Refinement.FindsWhatLookupFinds` | src/registry/storage.rs:462-476 | Path resolution on disk and lookup in the two maps find the same manifest or none |
| `Refinement.EmptyRefinesNothing` | src/registry/storage.rs:287-318 | The empty store refines the empty registry |
| `ManifestTheorems.InstalledTagsResolve` | src/registry/storage.rs:478-515 | In every reachable state an installed tag resolves to an existing entry whose bytes hash to the name in the link and parse, unless that manifest is being written |
| `ManifestTheorems.DiskReadsAgree` | src/registry/storage.rs:462-476 | With no write under way, reading by tag or digest is a lookup in the atomic registry |
| `ManifestTheorems.ReadsAreAtomic` | src/registry/storage.rs:462-476 | A read none of whose calls falls into a rewrite of its file returns what the registry held at one instant, whatever others did during the read |
| `ManifestTheorems.NotFoundExactly` | src/registry/storage.rs:471-475 | Under any interleaving, a read is told that there is nothing if and only if the registry holds nothing at that instant |
| `ManifestTheorems.FinishedPutIsVisible` | src/registry/storage.rs:507-514 | When a put replies, its tag and its digest give its bytes and every other tag is as before |
| `ManifestTheorems.PutByDigestIsRefused` | src/registry/storage.rs:487-497 | A put under a digest fails with `NotATag` after its bytes have become readable by digest |
| `ManifestTheorems.PutByDigestMovesNoTag` | src/registry/storage.rs:478-497 | No step of a put under a digest moves a tag |
| `Completion.PutCompletes` | src/registry/storage.rs:478-515 | From any state the store reaches, a put to a tag that is left alone and finds nothing in its way completes; its tag gives its bytes and no other client has moved |
| `Completion.FinalizeCompletes` | src/registry/storage.rs:413-460 | From any state the store reaches, a finalize that is left alone comes to its verdict: if the upload's bytes hash to the requested digest they become that blob and the upload is gone, otherwise the disk is as before |
| `Completion.ChunkCompletes` | src/registry/storage.rs:388-411 | From any state the store reaches, a chunk that is left alone is appended whole behind what its upload held and accepted with its length; without the upload it is refused and nothing changes |
| `Completion.UploadBegins` | src/registry/storage.rs:348-356 | A new upload gets the drawn name and an empty file, and every other file stays |
| `Completion.GetCompletes` | src/registry/storage.rs:462-476 | From any state the store reaches in which no manifest is being written, a read that is left alone replies with what the registry holds |
| `Completion.RewriteEmptiesRead` | src/registry/storage.rs:471-489 | In any state the store reaches, if a put of the manifest a reader asks for opens the file first, the reader can be given nothing |
| `Completion.ReadsCanTear` | src/registry/storage.rs:471-489 | For every manifest and tag, a schedule from the empty store in which only that manifest is ever put there, and a reader is given nothing after a put of it was done |
| `Replies.StepServesRequest` | src/registry/storage.rs:348-515 | Every step keeps to the client's own request or gives a reply that this very step makes true; a refusal names what is so: a manifest that does not parse, a digest for a tag, an upload that is not there, bytes of another hash |
| `Replies.CallCarries` | src/registry.rs:413-422 | A call starts the program of its own request |
| `Replies.RunServesRequest` | src/registry/storage.rs:348-515 | In every schedule, among any other clients, a request is still under way or has had a reply that was true when given, and keeps it; when a chunk has been accepted, what the client's steps added to its upload is exactly the body, and they added nothing to any other |
| `Replies.RunAppendsItsBody` | src/registry.rs:353-371 | A chunk request adds exactly the front of its body to its own upload: all but what remains while it runs, all of it if accepted, some of it if it fails; no other request adds to any upload |
| `Replies.NobodyWaits` | src/registry/storage.rs:348-515 | A client can take a step if and only if it has not replied; no client waits for another |
| `BlobTheorems.FinalizeDecides` | src/registry/storage.rs:433-450 | The verdict of a finalize compares the hash of everything sent to the upload with the requested digest, and changes nothing on disk |
| `BlobTheorems.HashingProgresses` | src/registry/storage.rs:433-439 | The hash loop always goes on, with any nonempty block up to the buffer size, or reaches its verdict |
| `BlobTheorems.AppendKeepsBlobsExactly` | src/registry/storage.rs:413-460 | An append keeps every blob hashing to its name, and every upload whose finalize is confirmed hashing to its digest, if and only if it overlaps no confirmed finalize and no blob of the same upload, or the longer content collides |
| `BlobTheorems.RunKeepsBlobs` | src/registry/storage.rs:413-460 | Any schedule without such an overlap keeps every blob, and every upload whose finalize is confirmed, hashing to its digest |
| `BlobTheorems.RunAppends` | src/registry.rs:353-363 | An upload holds, in order, exactly the chunk bytes of the whole schedule |
| `BlobTheorems.BlobsAreWhatWasSent` | src/registry/storage.rs:388-460 | From an empty store, each blob hashes to its name and is all the bytes appended, in order, to the upload whose finalize made it |
| `BlobTheorems.BlobsNeverChange` | src/registry/storage.rs:452-456 | A blob stays, and its bytes never change unless two byte strings collide |
| `BlobTheorems.LateChunkChangesABlob` | src/registry/storage.rs:414-415 | A schedule with an overlap that leaves a blob whose bytes are not those its name was made from |
| `Storage.OpenFile.Read` | src/registry/storage.rs:434 | A read call yields the next bytes, possibly fewer than asked for, and none only at the end |
| `Storage.HashBlocks` | src/registry/storage.rs:424-443 | However short the reads, the loop ends with the hash of the whole file |
| `Storage.FilesystemStorage.constructor` | src/registry/storage.rs:287-318 | The store of an empty root is well formed |
| `Storage.Open` | src/registry/storage.rs:296-317 | Opening makes each directory that does not exist, and fails where one cannot be made |
| `Storage.OpeningKeeps` | src/registry/storage.rs:302-309 | Opening adds directories of the list and nothing else, and keeps all there was |
| `Storage.ReopeningFindsTheStore` | src/registry/storage.rs:302-309 | Opening a well-formed store changes nothing |
| `Storage.OpeningMakesTheStore` | src/registry/storage.rs:302-309 | Opening an empty root makes the empty store |
| `Storage.FilesystemStorage.BeginNewUpload` | src/registry/storage.rs:348-356 | Adds one empty upload and nothing else |
| `Storage.FilesystemStorage.AddChunk` | src/registry.rs:353-371 | Appends the pieces in order to the upload and to no other file, and replies with the size of this request; a failure after some bytes, be it in opening, receiving, writing or flushing, is reported and leaves exactly those; a missing upload is reported and nothing changes |
| `Storage.FilesystemStorage.FinalizeUpload` | src/registry/storage.rs:413-460 | Exact conditions of success and of each error, failing reads and renames included; on success the blob is the content and the upload is gone, on any error nothing changes |
| `Storage.FilesystemStorage.GetManifest` | src/registry/storage.rs:462-476 | Gives the file a digest names or a tag links to, or nothing if there is none |
| `Storage.FilesystemStorage.PutManifest` | src/registry/storage.rs:478-515 | Exact conditions of each error, any single operation failing included; what is in the manifest file then; the manifest is readable by digest once it is stored, by its tag on success; no other tag or manifest changes, and on an error nothing but the manifest, directories, and after a failed rename the temporary link |
| `Digests.ParseDefined` | src/registry.rs:307-333 | A digest parses if and only if it is `sha256:` followed by 64 hexadecimal digits; the length is complained about before the prefix, and the prefix before the digits |
| `Digests.ParseOfPrint` | src/registry.rs:307-339 | Parsing a printed digest gives it back |
| `Digests.PrintOfParse` | src/registry.rs:307-339 | Printing a parsed digest gives the same text with its letters in lower case |
| `Digests.HexInjective` | src/registry/storage.rs:39-43 | Different digests have different file names |
| `Digests.HexDigitsOf` | src/registry/storage.rs:39-43 | Each byte is printed as two digits of `0123456789abcdef`, the high one first |
| `Digests.ReferenceRoundTrip` | src/registry/storage.rs:120-180 | Serializing a reference is undone if and only if it is no tag that looks like a digest; the display form is the serialized one without `sha256:` |
| `Digests.DeserializeCollapses` | src/registry/storage.rs:120-135 | Two texts are one reference if and only if equal, or one digest up to letter case |
| `Texts.LoweringIgnoresCase` | src/reverse_proxy.rs:91-99 | Two texts have one lower-case form if and only if they are equal up to the case of letters, by character codes |
| `Texts.LoweredExactly` | src/reverse_proxy.rs:91-99 | The lower-case form of a text is the one text equal to it up to case and without capitals |
| `Routing.ServesExactly` | src/reverse_proxy.rs:91-100 | A container has a domain if and only if its repository has a dot and is the domain up to case, and the domain has no capitals |
| `Routing.FromContainers` | src/reverse_proxy.rs:120-138 | The loop over two maps builds the table of the list |
| `Routing.PathIndexHoldsLast` | src/reverse_proxy.rs:120-138 | The path index has a location if and only if some container is there, and holds the last one |
| `Routing.DomainIndexHoldsLast` | src/reverse_proxy.rs:91-138 | The domain index has a domain if and only if some container's lower-case dotted repository is it, and holds the last one |
| `Routing.IndexesAgree` | src/reverse_proxy.rs:120-138 | What the domain index holds, the path index holds at that container's location |
| `Routing.TableIgnoresOrder` | src/reverse_proxy.rs:120-138 | With distinct locations and domains the table does not depend on the order of the list |
| `Routing.SplitPathBaseUrl` | src/reverse_proxy.rs:315-332 | The first two segments are the location, the rest is each further segment after one slash |
| `Routing.GetDestination` | src/reverse_proxy.rs:140-211 | The branches and pushes compute the destination function the theorems are about |
| `Routing.RoutingIsScanning` | src/reverse_proxy.rs:120-211 | Routing through the built table is a scan of the list: last container named by the host, else internal, else last one named by the path, else not found |
| `Routing.InternalPathsStay` | src/reverse_proxy.rs:175-179 | Without a host, every path that begins with `/_rockslide` is internal, whatever is published |
| `Routing.PortMattersExactly` | src/reverse_proxy.rs:143-160 | A port after the host changes nothing, for all tables and requests, if and only if the host names the same domain with and without what follows its own last colon |
| `Routing.CaseDoesNotMatter` | src/reverse_proxy.rs:91-99 | Hosts equal up to the case of letters, by character codes, are routed alike, colons or not |
| `Routing.PortAndCaseDoNotMatter` | src/reverse_proxy.rs:143-160 | So a port on a host without a colon, and the host's letter case by character codes, change nothing |
| `Routing.RewritingIsExact` | src/reverse_proxy.rs:182-200 | Script name and the text put together for the container are the request path with runs of slashes collapsed; that text has the remaining segments, no double slash, and ends in a slash exactly if the original does |
| `Routing.PathRoutingRewrites` | src/reverse_proxy.rs:181-207 | For every table and request routed by path, the destination is built from that text and the query unchanged |
| `Routing.ShownPathExactly` | src/reverse_proxy.rs:197-202 | Of the path in the text of the destination, where an empty one is `/`: behind the script name it is the collapsed request path if and only if there are more than two segments or a final slash; it ends in a slash if and only if the original does or has two segments |
| `Routing.ResolvedPathExactly` | src/reverse_proxy.rs:181-207 | Of that path with dot segments resolved, encoded dots included: its segments are those after the location if and only if none of them is a dot segment; behind the script name it is the collapsed request path if and only if, besides, there are more than two segments or a final slash |
| `Routing.DotsLeaveThePath` | src/reverse_proxy.rs:181-207 | The request `/foo/bar/../x` has `/../x` in its destination, which resolves to `/x` |
| `Routing.PathRoutingShows` | src/reverse_proxy.rs:181-207 | For every request routed by path, the text of the destination has that path and the query |
| `Routing.BareLocationShowsRoot` | src/reverse_proxy.rs:186-200 | The request `/foo/bar` has the path `/` in the text of its destination |
| `Routing.PublishedIsReachedExactly` | src/reverse_proxy.rs:175-207 | A request below a location without a host is proxied if and only if the location is published and its repository does not begin with `_rockslide` |
| `TableLock.StepKeepsInv` | src/reverse_proxy.rs:292-304 | Whenever no writer holds the lock, the table is that of one installed snapshot; readers and writers exclude each other |
| `TableLock.AnswersComeFromOneSnapshot` | src/reverse_proxy.rs:338-341 | However refreshes and requests interleave, each answer is the scan of one snapshot |
| `TableLock.OlderSnapshotCanWin` | src/container_orchestrator.rs:234-244 | A schedule in which the refresh that looked first is installed last |
| `TableLock.NewestStandsExactly` | src/reverse_proxy.rs:292-304 | Over all later schedules without a further refresh, with the lock granted in the order it is asked for, a refresh's table stands once it has finished, if and only if no other refresh that would build a different table was still building when it began |
| `ContainerNames.NameRoundTrip` | src/container_orchestrator.rs:256-260 | The name is `rockslide---`, repository, `---`, image; a location survives it if and only if its repository neither contains `---` nor ends in `-` |
| `ContainerNames.NameOfParse` | src/container_orchestrator.rs:460-472 | A name that parses is the name of what it parses to, so no two names share a location |
| `ContainerNames.CleanNamesDiffer` | src/container_orchestrator.rs:256-260 | Between locations with such repositories, equal names mean equal locations |
| `ContainerNames.OwnsNameExactly` | src/container_orchestrator.rs:256-260 | No other location with nonempty names has a location's container name if and only if `---` occurs nowhere in it but where it joins repository and image, or where one side would be empty |
| `ContainerNames.OwnersAreClean` | src/container_orchestrator.rs:460-472 | A location that owns its name survives it if and only if the name does not begin with `---` |
| `ContainerNames.UncleanNamesClash` | src/container_orchestrator.rs:256-260 | Two different locations with one container name, of which one has a repository that survives |
| `ContainerNames.FirstNameDecides` | src/container_orchestrator.rs:460-472 | A container's location is that of the first of its names that parses |
| `ContainerNames.LastColonBegins` | src/container_orchestrator.rs:474-479 | The recovered tag is the end of the image that begins with its last colon |
| `ContainerNames.ImageUrlNames` | src/container_orchestrator.rs:269-275 | Read back, the image URL asks the registry for the location's `prod` manifest if and only if its names have no slash, and for nothing otherwise |
| `ContainerNames.ProductionTagKeepsColon` | src/container_orchestrator.rs:474-479 | The tag recovered from a production image URL is `:prod`, whatever the address contains |
| `ContainerNames.ProductionIsRecovered` | src/container_orchestrator.rs:460-486 | A production container is recovered under its location if and only if the repository survives, and leads to the location's configuration path |
| `ContainerNames.RecoveredTagKeepsColon` | src/container_orchestrator.rs:474-486 | No recovered reference carries the tag `prod` |
| `Configs.ConfigUrlRoundTrip` | src/reverse_proxy.rs:465-482 | The URL is `/_rockslide/config/<repository>/<image>/prod`; a location survives it if and only if its names have no slash |
| `Configs.ConfigUrlOfParse` | src/reverse_proxy.rs:465-482 | The only paths accepted are the configuration URLs of what they parse to |
| `Configs.ConfigUrlsExactly` | src/reverse_proxy.rs:465-482 | A path is taken for a location's configuration URL if and only if it is `/_rockslide/config/<repository>/<image>/prod` with names without slashes |
| `Configs.ConfigUrlStays` | src/reverse_proxy.rs:175-179 | Configuration URLs are internal paths |
| `Configs.LoadedExactly` | src/container_orchestrator.rs:141-160 | With or without its colon, the tag `prod` loads what the location's file reads as, and the default without a password if there is no file |
| `Configs.ManagedExactly` | src/container_orchestrator.rs:207-221 | A container is managed if and only if one of its names parses, its image has a colon, and it has a port |
| `Configs.SavedIsLoaded` | src/container_orchestrator.rs:162-187 | A save that is not cut off returns what was saved if and only if the reader gives back what the writer wrote and no directory is in its place; whatever file was there is replaced, readable or not |
| `Configs.SavingIsLocal` | src/container_orchestrator.rs:162-187 | Saving, even when it fails halfway, changes what is loaded only for references whose path leads to the same file |
| `Configs.PathOfNames` | src/registry/storage.rs:94-99 | Without slashes in the names, the configuration file is where following repository, image and trimmed tag leads, dots included |
| `Configs.SamePathSameContainer` | src/registry/storage.rs:94-99 | Two references by plain names share a configuration file if and only if they have one location and tags equal up to leading colons |
| `Configs.DotsShareAFile` | src/registry/storage.rs:94-99 | With dots for names, two locations share a file |
| `Configs.PathStaysBelowExactly` | src/reverse_proxy.rs:465-482 | The file of a configuration URL is below the configuration directory if and only if its names do not climb out, or climb back in |
| `Configs.LoadsExactly` | src/container_orchestrator.rs:207-232 | A refresh succeeds if and only if every managed container has a host address and a readable configuration |
| `Configs.FailureStays` | src/container_orchestrator.rs:197-203 | The first container that fails decides the outcome |
| `Configs.LoadsInOrder` | src/container_orchestrator.rs:197-204 | The published list keeps the order of podman's listing |
| `Configs.LoadedAreListed` | src/container_orchestrator.rs:189-232 | Published containers are exactly the managed ones of the listing, each with its own reference, address and stored configuration |
| `Configs.SavedConfigReachesContainers` | src/container_orchestrator.rs:162-244 | After a save and a refresh, every entry of both indexes carries the saved configuration if it shares the path and its own stored one if not |
| `Deployment.SynchronizeEffect` | src/container_orchestrator.rs:246-348 | It succeeds if and only if every command does, the names have no slash and the tag exists; then the container runs what the registry holds under the reference that the image URL names; after a removal no older container is left; other containers and images stay |
| `Deployment.FirstFailureIsReported` | src/container_orchestrator.rs:246-348 | The error is that of the first command that does not succeed, in the order they are issued |
| `Deployment.ImageUrlFetches` | src/container_orchestrator.rs:269-293 | Asking the registry for a location's image URL gets its production manifest, and nothing if a name has a slash |
| `Deployment.OnlyProductionSynchronizes` | src/container_orchestrator.rs:250-253 | Podman is left alone with `Ok(false)` if and only if the reference is not the production tag |
| `Deployment.OneContainerPerLocation` | src/container_orchestrator.rs:256-260 | No location has two containers |
| `Deployment.DeploymentExactly` | src/container_orchestrator.rs:262-267 | Right after a push, only the new image runs if and only if the removal had its effect, or there was no container, or it ran the new image already |
| `Deployment.RunKeepsUpToDate` | src/container_orchestrator.rs:246-348 | Over any run of pushes and exits with failures anywhere, only the current production manifest runs for a location unless the last removal had no effect or a location of the same name took the container; a successful deployment runs until it ends or is taken |
| `Deployment.UpToDateInEveryRun` | src/container_orchestrator.rs:246-348 | A location is up to date after every run of pushes with nonempty names whose last removal for it had its effect, if and only if it owns its container name, or its names have a slash and nothing is ever started for it |
| `Deployment.RivalReplaces` | src/container_orchestrator.rs:256-267 | Two pushes by names without slashes in which every command succeeds, after which a location's container runs the image of another |
| `Deployment.WhatRunsIsWhatWasPushed` | src/container_orchestrator.rs:495-501 | After a successful deployment whose container neither ended nor was taken since, it runs the manifest pushed last |
| `Deployment.MissedRemovalLeavesOld` | src/container_orchestrator.rs:264-267 | A run in which a failed removal leaves an older container |
| `Deployment.ExitedIsGone` | src/container_orchestrator.rs:334-341 | Over any run, a container that ended is gone until the next push to its name, and its image with it if the run was told to remove it |
| `Hooks.AloneIsSynchronize` | src/container_orchestrator.rs:246-348 | A hook that no other interleaves with does and yields what the synchronization of its push does |
| `Hooks.ImageUrlsDiffer` | src/container_orchestrator.rs:269-275 | Locations without slashes in their names have different image URLs |
| `Hooks.NamesInUseAreRefused` | src/container_orchestrator.rs:334-345 | In any reachable state, the last command of a hook succeeds if and only if it does and no container has the name; it then runs the image pulled before, or the current manifest if that image is gone |
| `Hooks.ContainersStand` | src/container_orchestrator.rs:262-267 | Over any schedule, a container stays as it is until a hook of its name removes it or it ends |
| `Hooks.PushStandsExactly` | src/container_orchestrator.rs:246-348 | With hooks interleaving at every podman command, and no further push to its container name, a push's container runs nothing but its manifest from its removal on, if and only if every other hook of that name under way is of the same location and has no different image pulled and not yet started |
| `Hooks.OlderPushCanWin` | src/container_orchestrator.rs:495-501 | A push that comes while an older one is half-way cannot rely on that |
| `Orchestrator.ReverseProxy.UpdateContainers` | src/reverse_proxy.rs:292-304 | The table becomes that of the new list |
| `Orchestrator.ContainerOrchestrator.FetchManagedContainers` | src/container_orchestrator.rs:189-205 | The loop loads the listing in order and stops at the first failure |
| `Orchestrator.ContainerOrchestrator.UpdatedPublishedSet` | src/container_orchestrator.rs:234-244 | The table is that of the containers fetched, or the old one after any failure |
| `Orchestrator.RefreshServesWhatRuns` | src/container_orchestrator.rs:234-244 | After a refresh whose listing loads, every managed container's location is in the path index, every entry is a managed container's, and each request goes where a scan of the loaded containers sends it; after one that fails the table is as before |
| `Orchestrator.ContainerOrchestrator.HandleConfig` | src/reverse_proxy.rs:436-511 | The configuration directory, the reply and the table after a request; the table changes only after a save that was read back |
| `Orchestrator.RepliesExactly` | src/reverse_proxy.rs:457-513 | For every method, path and body: the reply is an authentication failure if and only if the request is not authorized, an invalid URL if and only if it is authorized and the path is no configuration URL or the method another, an invalid payload if and only if a PUT to such a URL does not parse |
| `Orchestrator.GetGivesWhatIsStored` | src/reverse_proxy.rs:489-497 | An authorized GET of a location's URL gives what its file reads as, or the default without one, and changes nothing |
| `Orchestrator.PutStoresWhatIsSent` | src/reverse_proxy.rs:498-511 | An authorized PUT writes the text its body serializes to into the location's file, and is answered with what that text reads as if and only if nothing is in the way and it was written whole |
| `Orchestrator.GetAfterRun` | src/reverse_proxy.rs:489-511 | After any run of requests, authorized or not, a GET gives what was last stored for the location's file, unless a PUT wrote there since without being stored |
| `Orchestrator.PutThenGet` | src/reverse_proxy.rs:489-511 | A stored configuration was written whole and is what a later GET returns; it is the one sent if and only if reader and writer agree on it |
| `Orchestrator.OnlyPutChanges` | src/reverse_proxy.rs:456-511 | Only an authorized PUT to a location's own URL changes the directory, and only at the file that location's path leads to |
| `Orchestrator.PutConfigIsServed` | src/reverse_proxy.rs:465-511 | After a successful PUT and refresh the table serves the new configuration for that path and the stored ones for all others; if podman reports the location's production container, the location has an entry |
| `Orchestrator.ContainerOrchestrator.SynchronizeContainerState` | src/container_orchestrator.rs:246-348 | The command sequence on the real store, which is asked for the reference that the image URL names: podman and the result are those of the synchronization theorems |
| `Orchestrator.NonePublishedIsProduction` | src/container_orchestrator.rs:350-356 | No container a refresh publishes has a reference that a synchronization would act on |
| `Orchestrator.ContainerOrchestrator.SynchronizeAll` | src/container_orchestrator.rs:350-363 | The start-up loop leaves podman as it was, for every listing |
| `Orchestrator.ContainerOrchestrator.OnManifestUploaded` | src/container_orchestrator.rs:495-501 | Synchronizes, and refreshes the published set whether or not that failed |
| `Orchestrator.ContainerRegistry.ManifestPut` | src/registry.rs:413-429 | Exact conditions of each error; a stored manifest is under its tag, a production one runs with exactly its bytes if every command succeeds, and the table is refreshed; a refused one touches neither podman nor table |
| `Orchestrator.PushedContainerIsPublished` | src/container_orchestrator.rs:246-348 | After a successful production push and a faithful listing, the location's only container runs the pushed manifest; the refreshed path index has the location if and only if its repository survives the container name, and then leads to that container with what is stored for the location |
| `Orchestrator.PushedContainerIsReached` | src/reverse_proxy.rs:175-207 | A request below it without a host is proxied if and only if the repository survives its container name and does not begin with `_rockslide`, and then goes to that container |
| `Volumes.FromPath` | src/container_orchestrator.rs:393-415 | The component loop accepts a path if and only if it has no parent component and, unless absolute, no leading dot, and yields its names |
| `Volumes.VolumeDecides` | src/container_orchestrator.rs:393-415 | The same of the function the other lemmas are about: the names of the path are the pieces of the volume |
| `Volumes.SingleName` | src/container_orchestrator.rs:393-415 | A single name, below the root or on its own, is that volume |
| `Volumes.AcceptedIsStable` | src/container_orchestrator.rs:393-415 | Taking an accepted volume's own path again changes nothing |
| `Volumes.MountsAreDeclared` | src/container_orchestrator.rs:315-328 | The container path is the declared directory, the host path is that directory below the volume base |
| `Volumes.VolumesAreSeparate` | src/container_orchestrator.rs:315-328 | Two volumes share a host directory if and only if they declare the same directory |
| `BasicAuth.DigitIsOfAlphabet` | src/registry/www_authenticate.rs:30-33 | The digits are those of the standard alphabet of section 4 of RFC 4648 |
| `BasicAuth.GroupsAreNumbers` | src/registry/www_authenticate.rs:30-33 | Every three bytes are encoded as four digits of the same 24-bit number |
| `BasicAuth.EndIsPadded` | src/registry/www_authenticate.rs:30-33 | One or two last bytes are encoded as if zeros followed, with pad characters for the digits of those alone |
| `BasicAuth.DecodeInvertsEncode` | src/registry/www_authenticate.rs:30-33 | A text decodes to some bytes if and only if it is their one encoding |
| `BasicAuth.SplitIsDenoted` | src/registry/www_authenticate.rs:35-44 | The decoded bytes are split at their first colon; without one they are the user name |
| `BasicAuth.ParserMeetsGrammar` | src/registry/www_authenticate.rs:15-47 | The parser accepts exactly blanks, the scheme in any letter case, blanks, one canonical base64 token, then whitespace or the end, and yields what the token denotes and the unread rest |
| `BasicAuth.CredentialsRoundTrip` | src/registry/www_authenticate.rs:21-47 | A user name and password come back from their header, all input consumed, if and only if the user name has no colon |
| `BasicAuth.KnownResponse` | src/registry/www_authenticate.rs:57-70 | `Basic YWxhZGRpbjpvcGVuc2VzYW1l` is user `aladdin` with password `opensesame` |

## Left out

- Podman's command lines, JSON and process handling (`src/podman.rs`): podman is a map of containers and a map of images, and each command succeeds, fails without effect, or fails after its effect.
- Request plumbing, header copying, status codes and error tables (`src/registry/types.rs`).
- Routing.ShownPathExactly: is about the text of the destination. The HTTP client parses that text again before it sends it: besides resolving dot segments it reads backslashes as slashes and percent-encodes some characters of path and query, which is not part of this model.
- The `Range` and `Content-Length` checks at the start of the chunk and finalize handlers (`src/registry.rs:348-351`, `src/registry.rs:386-399`): one branch each.
- The access check of a proxied container (`src/reverse_proxy.rs:350-371`): a lookup of the user in the configuration the destination carries.
- Authentication providers and the master key (`src/registry/auth.rs`, `src/config.rs`): only whether a request is authorized is a parameter.
- The program's start, host-name guessing and default settings (`src/main.rs`).
- Reading blobs and their metadata (`src/registry/storage.rs:358-386`): opening a file by its digest, without further state.
- Storage.Open: that a store with contents satisfies the invariant of the step machine right after it is opened is not shown; theorems about runs hold from any state that does.
- Machine: a manifest write that fails halfway is a client that takes no further step; its error reply is in `Storage.FilesystemStorage.PutManifest`.
- Refinement.RunRefines: a read that overlaps a rewrite of its own manifest may see part of it and shows no event; the code promises nothing there, and `Completion.ReadsCanTear` shows that it happens.
- BlobTheorems.RunKeepsBlobs: excludes runs in which a chunk write overlaps a finalize of the same upload, which the code does not prevent.
- Orchestrator.ContainerOrchestrator.HandleConfig: takes `..` out of a path as if the component before it existed and were no link; saving and refreshing run without another request in between.
- Deployment.RunKeepsUpToDate: pushes run one after the other; several hooks at once are the subject of `Hooks`.
- Hooks.PushStandsExactly: only pushes to production tags by names without slashes take part; other pushes send no command.
- Volumes.FromPath: a volume path containing a colon, which podman's volume option would split, is not treated.
- Renaming directories: the store renames only files and links.
- Lower case beyond ASCII letters.
