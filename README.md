# binman release resolution, modelled in Dafny

binman tracks releases published on GitHub and GitLab. For each tracked
repository it puts one chosen binary under a versioned directory and exposes it
through a stable link. This project models the core of that pipeline for one
repository and proves properties of the model:

- the `BinmanRelease` descriptor (`pkg/binmanRelease.go`). A class
  `Binman.BinmanRelease` holds the descriptor's fields. Its methods update those
  fields in place, as the Go methods do:
  - splitting `owner/project` into org and project;
  - the versioned publish directory `<root>/repos/<org>/<project>/<tag>`;
  - the predicted artifact path, with its strict priority list;
  - the link path and the download file path;
  - the known-URL override;
  - the templating data;
  - the post-extraction artifact finder: a walk over directory entries with
    exact-match and 0755-fallback tiers, followed by the link rename.
- the three pre-actions (`pkg/preactions.go`): the release status check, URL
  resolution and artifact path resolution. Each is a class holding the shared
  descriptor, with an `Execute` method that updates it and returns `Pass` or an
  `Error`: `NoUpdate`, `AssetNotFound` or `FsError`.

Each state-changing method states its complete new state. Its `modifies`
clause names the fields it may write, so no other field changes. Its
`ensures` clauses tie the new values to pure functions such as `PublishPath`,
`ArtifactName`, `Walk` and `LinkAfterDiscovery`. The lemmas beside those
functions prove the properties the source relies on:
- the priority order of the artifact rules;
- that the first exact match decides the walk;
- that the 0755 fallback is never used when an extract file name is set;
- that publish directories are unique per (org, project, version);
- that the link rename respects the repo sentinel and is idempotent;
- that `Split`/`Join` round-trip.

Files:
- `file_paths.dfy` (module `FilePaths`): Go's `strings.Split`, `strings.Join`
  and `strings.TrimSuffix`, and `filepath.Join`, `Base` and `Dir` on
  `/`-separated paths, with their lemmas.
- `binman_release.dfy` (module `Binman`): the descriptor, its path rules, the
  walk and the link update.
- `preactions.dfy` (module `PreActions`): the actions, an abstract filesystem
  and an abstract metrics registry.

Collaborators the core only calls are parameters:
- the templating engine, the archive-type detector and the tar/zip name
  patterns (`Binman.Helpers`);
- the provider asset lookups and the asset selector (`PreActions.Providers`);
- the known-URL table (a `map` argument).

The filesystem (`PreActions.FileSystem`) has three parts:
- a set of existing paths;
- an oracle of paths whose stat fails for a reason other than absence;
- an oracle of paths whose creation fails.

It also logs every directory creation attempted, in order. The directory walk
is a sequence of `(name, path, isDir, perm)` entries in walk order.

`preactions.go` and `binmanRelease.go` come from different revisions; the
model follows the definitions in `binmanRelease.go`:
- `preactions.go` calls `setpublishPath` and `setArtifactPath(releasePath,
  binPath, assetName)`;
- `binmanRelease.go` defines `setPublisPath` and a two-argument
  `setArtifactPath`;
- the model uses the two-argument form, and `binPath` only decides which
  directories are created;
- `preactions.go` reads `PublishPath`; the model takes it to be the
  `publishPath` field that `setPublisPath` writes.

The fields `relData`, `watchExposeMetrics` and `SourceIdentifier`, which
`preactions.go` reads, are fields of the model's descriptor. The metrics
registry is the `MetricVec` parameter of `ReleaseStatusAction.Execute`.

The model follows the code, which does the following:
- the templating key for the asset name is `filename`;
- an empty bin directory only skips creating the bin directory: the publish
  directory is always created;
- the target name the walk looks for is the templated base name of the
  predicted artifact path, plus `.exe` on Windows;
- an unset link name is replaced after the walk by the discovered file's base
  name;
- with an unrecognised payload shape, `SetUrlAction` keeps whatever `dlUrl`
  held before. It reports "asset not found" only if that value is empty.

## Model

| member | source | states |
|---|---|---|
| `Binman.BinmanRelease.GetOR` | pkg/binmanRelease.go:51-55 | org and project become the first and second `/`-segments of Repo; a Repo without `/` is excluded, since the source indexes past the end of the split |
| `Binman.OrgProjectOfRepo` | pkg/binmanRelease.go:52-54 | org is the text before the first `/`, project the text after it up to the next `/` or the end; neither contains `/` |
| `FilePaths.SplitHasTwo` | pkg/binmanRelease.go:52-54 | splitting yields a second segment exactly when the repo contains `/` |
| `FilePaths.JoinSplit` | pkg/binmanRelease.go:52 | joining the segments of a split with `/` gives back the original string |
| `FilePaths.SplitJoin` | pkg/binmanRelease.go:52 | splitting a `/`-join of `/`-free segments gives back those segments |
| `FilePaths.SplitSegmentsFree` | pkg/binmanRelease.go:52 | no segment of a split contains the separator |
| `FilePaths.SplitFree` | pkg/binmanRelease.go:52 | a string without the separator splits into itself alone |
| `FilePaths.SplitConcat` | pkg/binmanRelease.go:52 | splitting `a + "/" + b` gives the segments of `a` followed by those of `b` |
| `FilePaths.SplitOfJoin` | pkg/binmanRelease.go:122-123 | joining a plain element onto a non-empty path adds exactly that element as one more `/`-segment |
| `Binman.BinmanRelease.SetPublisPath` | pkg/binmanRelease.go:120-124 | publishPath becomes the publish directory of (root, org, project, tag); it is the only field that changes |
| `Binman.PublishPathLayout` | pkg/binmanRelease.go:122-123 | with non-empty parts the publish directory is root (one trailing `/` removed) + `/repos/` + org + `/` + project + `/` + tag |
| `Binman.PublishPathSegments` | pkg/binmanRelease.go:122-123 | the segments of the publish directory are the root's segments followed by `repos`, org, project and tag |
| `Binman.PublishPathInjective` | pkg/binmanRelease.go:120-124 | two publish directories are equal only if their org, project and tag are equal, whatever the roots |
| `Binman.PublishPathBase` | pkg/binmanRelease.go:123 | the base name of the publish directory is the tag |
| `Binman.TemplateData` | pkg/binmanRelease.go:127-138 | the templating data has exactly the keys version, os, arch, org, project, artifactPath, linkpath and filename, each mapped to its field |
| `Binman.BinmanRelease.GetDataMap` | pkg/binmanRelease.go:127-138 | the map filled key by key equals the templating data of the current fields and has exactly those eight keys |
| `Binman.BinmanRelease.KnownUrlCheck` | pkg/binmanRelease.go:111-116 | ExternalUrl becomes the mapped URL exactly when Repo is a key of the known-URL map, and is otherwise unchanged; nothing else changes |
| `Binman.BinmanRelease.SetArtifactPath` | pkg/binmanRelease.go:141-186 | artifactPath is the predicted artifact name under publishPath; linkPath is ReleasePath joined with LinkName, or with project when LinkName is empty; filepath is publishPath + `/` + the assetName field, not the parameter |
| `Binman.ArtifactNamePriority` | pkg/binmanRelease.go:156-180 | a non-empty ReleaseFileName decides alone, whatever ExtractFileName or ExternalUrl hold; ExtractFileName decides only when ReleaseFileName is empty; after that, a tar/zip asset gives the project name, and otherwise the URL's base name (ExternalUrl set) or the asset name |
| `Binman.ArtifactInPublishPath` | pkg/binmanRelease.go:157-177 | a predicted artifact with a plain name lies directly in the publish directory under that name |
| `Binman.BinmanRelease.FindTarget` | pkg/binmanRelease.go:57-108 | artifactPath becomes the result of the walk for the templated target name; LinkName and linkPath become the result of the link update; no other field changes |
| `Binman.BinmanRelease.RenameLink` | pkg/binmanRelease.go:101-107 | LinkName and linkPath become the link update of their old values for the current artifactPath; nothing else changes |
| `Binman.TargetNameSuffix` | pkg/binmanRelease.go:59-64 | on Windows the target name is the templated base name followed by `.exe`, appended once; otherwise it is the templated base name |
| `Binman.WalkStep` | pkg/binmanRelease.go:69-98 | one walk step: ignored entries leave the path alone; an exact match ends the walk on its path; without an extract file name a 0755 entry replaces the path |
| `Binman.WalkEntries` | pkg/binmanRelease.go:69-98 | running the walk callback over the entries in order, stopping at an exact match, ends on the path the walk definition gives |
| `Binman.WalkFirstExact` | pkg/binmanRelease.go:78-83 | the first exact-name match among non-ignored entries decides the artifact path, whatever precedes or follows it |
| `Binman.WalkWithoutExact` | pkg/binmanRelease.go:85-97 | with no exact match: when ExtractFileName is set the artifact path is unchanged; otherwise it is the path of the last 0755 entry that is not ignored, or unchanged if there is none |
| `Binman.LastExecutableCons` | pkg/binmanRelease.go:92-95 | scanning for the last 0755 entry from the end agrees with replacing the guess entry by entry from the front |
| `Binman.LastExecutableNone` | pkg/binmanRelease.go:92-95 | when no entry is an executable that the walk does not ignore, the scan for the last executable keeps its default |
| `Binman.WalkNoMatch` | pkg/binmanRelease.go:69-98 | with neither an exact match nor an executable entry, the walk leaves the artifact path unchanged |
| `Binman.WalkOrigin` | pkg/binmanRelease.go:72-95 | the walk ends on its starting path or on the path of an entry that is neither a directory nor a tar/zip name; with ExtractFileName set, on an exact match only |
| `Binman.LinkDiscoveryCases` | pkg/binmanRelease.go:101-107 | LinkName equal to Repo, or to the artifact's base name, leaves LinkName and linkPath unchanged; an empty LinkName becomes the artifact's base name, in linkPath's directory |
| `Binman.LinkPathEndsInName` | pkg/binmanRelease.go:101-107 | whenever the link is renamed, the new link path's base name is the new link name |
| `Binman.LinkDiscoveryIdempotent` | pkg/binmanRelease.go:101-107 | applying the link update again to its own result changes nothing |
| `FilePaths.TrimTrailing` | pkg/binmanRelease.go:59 | the result is a prefix of the path without a trailing separator, and only separators were removed |
| `FilePaths.LastSep` | pkg/binmanRelease.go:59 | the index of the last separator, or -1 when there is none |
| `FilePaths.Base` | pkg/binmanRelease.go:59 | filepath.Base is never empty, and is `/` or a single element without separators |
| `FilePaths.Dir` | pkg/binmanRelease.go:106 | filepath.Dir is never empty and has no trailing separator unless it is `/` |
| `FilePaths.LastSepOfChild` | pkg/binmanRelease.go:106 | in `d + "/" + n`, with n free of separators, the last separator is the one before n |
| `FilePaths.BaseOfChild` | pkg/binmanRelease.go:104-106 | the base name of `d + "/" + n` is n, for a plain element n |
| `FilePaths.BaseOfElement` | pkg/binmanRelease.go:59 | a plain element is its own base name |
| `FilePaths.BaseOfJoin` | pkg/binmanRelease.go:123 | the base name of the join of d and n is n, for a plain element n |
| `FilePaths.DirOfChild` | pkg/binmanRelease.go:106 | the directory of `d + "/" + n` is d, when d has no trailing separator and n none at all |
| `FilePaths.DirOfJoin` | pkg/binmanRelease.go:157-177 | the directory of the join of d and n is d |
| `FilePaths.DirOfSibling` | pkg/binmanRelease.go:106 | replacing the last element of a path keeps its directory |
| `FilePaths.TrimSuffix` | pkg/binmanRelease.go:122 | strings.TrimSuffix returns the string unchanged or with the suffix removed once |
| `PreActions.ReleaseStatusAction.constructor` | pkg/preactions.go:23-28 | the action holds the descriptor and the release root it was built with |
| `PreActions.MessageDistinguishesNoUpdate` | pkg/preactions.go:48 | the no-update error's text is `Noupdate`; no asset-not-found error (built at pkg/preactions.go:105) has that text, and its text ends with the repository it names |
| `PreActions.ReleaseStatusAction.Execute` | pkg/preactions.go:31-55 | publishPath is set from the release root and Version before the stat; an existing publish path gives NoUpdate, a missing one success, any other stat error is returned unchanged; a metrics series is recorded only when metrics are on; the filesystem is unchanged |
| `PreActions.LatestLabel` | pkg/preactions.go:37-40 | the `latest` label is "false" exactly when QueryType is "releasebytag", and "true" otherwise |
| `PreActions.ReleaseStatusTwice` | pkg/preactions.go:31-55 | two status checks against an existing publish directory both give NoUpdate, and neither changes the filesystem |
| `PreActions.StatusAfterArtifactPath` | pkg/preactions.go:31-55 | once artifact path resolution has succeeded, a status check for the same descriptor and release root reports NoUpdate: the publish directory is the idempotency marker |
| `PreActions.MetricVec.WithLabelValues` | pkg/preactions.go:41 | asking for a label set appends it to the recorded series |
| `PreActions.FileSystem.Stat` | pkg/preactions.go:34 | a stat fault is reported as such; otherwise the path exists exactly when it is in the set of existing paths |
| `PreActions.FileSystem.CreateDirectory` | pkg/preactions.go:131-135 | every creation attempt is logged; a faulting path returns its error and creates nothing; otherwise the directory exists afterwards |
| `PreActions.SetUrlAction.constructor` | pkg/preactions.go:61-65 | the action holds the descriptor it was built with |
| `PreActions.SetUrlAction.Execute` | pkg/preactions.go:68-109 | a set ExternalUrl gives dlUrl = the templated URL and assetName = its base name, and success, with no dispatch; otherwise GitHub and GitLab payloads set assetName and dlUrl together, from the lookup by templated ReleaseFileName when one is set and from the selector otherwise; an unrecognised payload changes neither; an empty dlUrl afterwards is "asset not found" |
| `PreActions.SetUrlAction.LookUpAsset` | pkg/preactions.go:78-101 | for a GitHub or GitLab payload, the asset found is the one named by the templated ReleaseFileName when that is set, and otherwise the selector's choice among the payload's assets |
| `PreActions.SetArtifactPathAction.constructor` | pkg/preactions.go:117-123 | the action holds the descriptor, the release root and the bin directory |
| `PreActions.SetArtifactPathAction.Execute` | pkg/preactions.go:125-138 | the paths are set as by SetArtifactPath with the assetName field; cleanupOnFailure is true even when creation fails; the directories attempted and created, and the outcome, are those of the creation order |
| `PreActions.CreationOrder` | pkg/preactions.go:130-135 | with no bin directory only publishPath is attempted; otherwise the bin directory comes first, and publishPath is attempted only if that creation did not fail |
| `PreActions.CreatedDirs` | pkg/preactions.go:130-135 | the directories added are exactly the attempted ones whose creation does not fault |
| `PreActions.CreationOutcome` | pkg/preactions.go:130-137 | the outcome is success exactly when no attempted creation faults; otherwise the last attempt is the only one that faulted, and its error is returned |

## Left out

- `pkg/config/main.go` (spawning an editor, YAML marshalling, reading and writing the config file, `releasesContains`) is not part of this model. It is I/O plumbing.
- The templating engine (`formatString`, `templating.TemplateString`), `findfType`, `TarRegEx`/`ZipRegEx` and `KnownUrlMap`: they are defined outside these two files (pkg/templating, pkg/gh, pkg/gl and elsewhere in pkg/) and are uninterpreted parameters here.
- The provider clients and lookups (`gh.GetAssetbyName`, `gl.GetAssetbyName`, `GHGetAssetData`, `GLGetAssetData`) and `selectAsset`: they are defined outside these two files (pkg/templating, pkg/gh, pkg/gl and elsewhere in pkg/) and are uninterpreted functions here, returning a (name, URL) pair. The OS/architecture matching of asset selection is not modelled.
- `FilePaths.Join`, `FilePaths.Dir`: path cleaning (`..`, `.`, repeated separators inside a path) is not modelled. Join skips empty elements and joins with `/`; Dir drops trailing separators only.
- `Binman.BinmanRelease.GetOR`: the panic on a repo without `/` is a precondition, not an error result.
- `Binman.BinmanRelease.FindTarget`: the entries are given in walk order, not read from disk. The errors WalkDir passes to its callback and a failing `d.Info()` are not modelled. The permission test is modelled as equality with 0755. The walk keeps its running guess in a local path and stores it in artifactPath once the walk ends; the callback in the source assigns the field entry by entry, and nothing reads it in between.
- `PreActions.FileSystem`: the directory creation helper is a set insertion with a fault oracle. Creating missing parent directories is not modelled, and creating an existing directory succeeds.
- `PreActions.ReleaseStatusAction.Execute`: a Prometheus series is modelled only as the label set being recorded.
- Logging, yaml struct tags, and the fields `UpxConfig`, `PostCommands`, `CheckSum`, `DownloadOnly` and `PostOnly`: they play no part in these decisions.
- The `version` template value is a plain field (`tagName`). The nil dereference of `githubData.TagName` in `getDataMap` is not modelled.
- The orchestration that runs the actions in order and stops at the first error is not part of this model. Neither are the download, extraction and linking actions.
