/**
 * The three pre-actions run in order for one repository: the release status
 * check, URL resolution and artifact path resolution. Each one updates the
 * shared descriptor and returns an outcome. The filesystem is a set of
 * existing paths plus fault oracles. The metrics registry is a log of
 * the label sets it was asked for. The provider lookups are parameters.
 */
module PreActions {
  import opened FilePaths
  import opened Binman

  /** The errors an action can return. */
  datatype Error =
    | NoUpdate                      // the version is already in place
    | AssetNotFound(repo: string)   // no download URL was resolved
    | FsError(message: string)      // a stat or directory creation failure

  /** The error text of each error. */
  function Message(e: Error): string
  {
    match e
    case NoUpdate => "Noupdate"
    case AssetNotFound(repo) => "Target release asset not found for " + repo
    case FsError(message) => message
  }

  /**
   * The "no update" error is told apart by its text alone: no "asset not
   * found" error carries it, and that error ends with the repository it names.
   */
  lemma MessageDistinguishesNoUpdate(repo: string)
    ensures Message(NoUpdate) == "Noupdate"
    ensures Message(AssetNotFound(repo)) != "Noupdate"
    ensures var m := Message(AssetNotFound(repo));
      |m| >= |repo| && m[|m| - |repo|..] == repo
  {
    var m := Message(AssetNotFound(repo));
    assert |m| > |"Noupdate"|;
    assert m[|m| - |repo|..] == repo;
  }

  /** What execute returns: nil or an error. */
  datatype Outcome = Pass | Fail(error: Error)

  /** What os.Stat reports for a path. */
  datatype StatResult = Exists | NotExist | StatFailed(message: string)

  /** The status check's outcome for each stat result. */
  function StatusOutcome(s: StatResult): Outcome
  {
    match s
    case Exists => Fail(NoUpdate)
    case NotExist => Pass
    case StatFailed(message) => Fail(FsError(message))
  }

  /** The metrics label "latest": "false" for a by-tag query, otherwise "true". */
  function LatestLabel(queryType: string): (latest: string)
    ensures latest == "false" <==> queryType == "releasebytag"
    ensures latest == "true" <==> queryType != "releasebytag"
  {
    if queryType == "releasebytag" then "false" else "true"
  }

  /** The label values of one metrics observation. */
  datatype Labels = Labels(latest: string, sourceIdentifier: string, repo: string, version: string)

  /** The metrics registry, abstracted as the label sets it was asked for, in order. */
  class MetricVec {
    var series: seq<Labels>

    constructor ()
      ensures series == []
    {
      series := [];
    }

    /** WithLabelValues: selects (and so records) the series for these labels. */
    method WithLabelValues(labels: Labels)
      modifies this
      ensures series == old(series) + [labels]
    {
      series := series + [labels];
    }
  }

  /**
   * The local filesystem: the existing paths (directories or files), the paths whose stat fails
   * for a reason other than absence, the paths whose creation fails, and the
   * directory creations attempted so far, in order.
   */
  class FileSystem {
    var dirs: set<string>
    var mkdirAttempts: seq<string>
    const statFaults: map<string, string>
    const mkdirFaults: map<string, string>

    constructor (dirs: set<string>, statFaults: map<string, string>, mkdirFaults: map<string, string>)
      ensures this.dirs == dirs && this.statFaults == statFaults && this.mkdirFaults == mkdirFaults
      ensures mkdirAttempts == []
    {
      this.dirs := dirs;
      this.statFaults := statFaults;
      this.mkdirFaults := mkdirFaults;
      mkdirAttempts := [];
    }

    /** os.Stat: a fault wins, otherwise the path exists or does not. */
    function Stat(p: string): (s: StatResult)
      reads this
      ensures s == Exists <==> p !in statFaults && p in dirs
      ensures s == NotExist <==> p !in statFaults && p !in dirs
      ensures s.StatFailed? <==> p in statFaults
    {
      if p in statFaults then StatFailed(statFaults[p])
      else if p in dirs then Exists
      else NotExist
    }

    /** CreateDirectory: records the attempt; creates the directory unless it faults. */
    method CreateDirectory(p: string) returns (err: Outcome)
      modifies this`dirs, this`mkdirAttempts
      ensures mkdirAttempts == old(mkdirAttempts) + [p]
      ensures p in mkdirFaults ==> err == Fail(FsError(mkdirFaults[p])) && dirs == old(dirs)
      ensures p !in mkdirFaults ==> err == Pass && dirs == old(dirs) + {p}
    {
      mkdirAttempts := mkdirAttempts + [p];
      if p in mkdirFaults {
        err := Fail(FsError(mkdirFaults[p]));
      } else {
        dirs := dirs + {p};
        err := Pass;
      }
    }
  }

  // ---------------------------------------------------------------------------
  // ReleaseStatusAction
  // ---------------------------------------------------------------------------

  /** ReleaseStatusAction: decides whether this version still has to be fetched. */
  class ReleaseStatusAction {
    const r: BinmanRelease
    const releasePath: string

    /** AddReleaseStatusAction */
    constructor (r: BinmanRelease, releasePath: string)
      ensures this.r == r && this.releasePath == releasePath
    {
      this.r := r;
      this.releasePath := releasePath;
    }

    /**
     * Sets the publish directory from releasePath and Version and stats it:
     * present means no update, absent means proceed, any other stat failure is
     * returned. Only publishPath and the metrics registry change.
     */
    method Execute(fs: FileSystem, metric: MetricVec) returns (res: Outcome)
      modifies r`publishPath, metric
      ensures r.publishPath == PublishPath(releasePath, r.org, r.project, r.Version)
      ensures res == StatusOutcome(fs.Stat(r.publishPath))
      ensures metric.series == old(metric.series)
        + (if r.watchExposeMetrics
           then [Labels(LatestLabel(r.QueryType), r.SourceIdentifier, r.Repo, r.Version)]
           else [])
      ensures unchanged(fs)
    {
      r.SetPublisPath(releasePath, r.Version);
      var st := fs.Stat(r.publishPath);

      if r.watchExposeMetrics {
        var latestLabel := "true";
        if r.QueryType == "releasebytag" {
          latestLabel := "false";
        }
        metric.WithLabelValues(Labels(latestLabel, r.SourceIdentifier, r.Repo, r.Version));
      }

      match st
      case Exists =>
        res := Fail(NoUpdate);
      case NotExist =>
        res := Pass;
      case StatFailed(message) =>
        res := Fail(FsError(message));
    }
  }

  /**
   * Idempotency: against a publish directory that already exists, the status
   * check answers "no update" on the first and on the second run, and neither
   * run touches the filesystem.
   */
  method ReleaseStatusTwice(action: ReleaseStatusAction, fs: FileSystem, metric: MetricVec)
    returns (first: Outcome, second: Outcome)
    requires fs.Stat(PublishPath(action.releasePath, action.r.org, action.r.project, action.r.Version)) == Exists
    modifies action.r`publishPath, metric
    ensures first == Fail(NoUpdate) && second == Fail(NoUpdate)
    ensures unchanged(fs)
  {
    first := action.Execute(fs, metric);
    second := action.Execute(fs, metric);
  }

  // ---------------------------------------------------------------------------
  // SetUrlAction
  // ---------------------------------------------------------------------------

  /** One asset as the lookups and the selector return it. */
  datatype AssetRef = AssetRef(name: string, url: string)

  /** The provider-side collaborators of URL resolution. */
  datatype Providers = Providers(
    ghAssetByName: (string, seq<GhAsset>) -> AssetRef,            // gh.GetAssetbyName
    glAssetByName: (string, seq<GlLink>) -> AssetRef,             // gl.GetAssetbyName
    ghAssetData: seq<GhAsset> -> seq<AssetRef>,                   // gh.GHGetAssetData
    glAssetData: seq<GlLink> -> seq<AssetRef>,                    // gl.GLGetAssetData
    selectAsset: (string, string, string, string, seq<AssetRef>) -> AssetRef)  // selectAsset(arch, os, version, project, assets)

  /**
   * The asset the provider dispatch picks: for either payload shape, the asset
   * named `requested` when a release file name was given, otherwise the
   * selector's choice; an unrecognised payload is excluded, since the source
   * then dispatches nothing. This is the specification of
   * SetUrlAction.LookUpAsset.
   */
  function DispatchAsset(p: Providers, data: ReleaseData, requested: string, byName: bool,
                         arch: string, os: string, version: string, project: string): (a: AssetRef)
    requires !data.OtherPayload?
  {
    match data
    case GitHubRelease(assets) =>
      if byName then p.ghAssetByName(requested, assets)
      else p.selectAsset(arch, os, version, project, p.ghAssetData(assets))
    case GitLabRelease(links) =>
      if byName then p.glAssetByName(requested, links)
      else p.selectAsset(arch, os, version, project, p.glAssetData(links))
  }

  /** SetUrlAction: resolves the asset name and the download URL. */
  class SetUrlAction {
    const r: BinmanRelease

    /** AddSetUrlAction */
    constructor (r: BinmanRelease)
      ensures this.r == r
    {
      this.r := r;
    }

    /**
     * An external URL is templated and its base name becomes the asset name,
     * with no provider dispatch and success. Otherwise the payload shape picks
     * the lookup, name and URL are set together, and an empty URL afterwards
     * is "asset not found".
     */
    method Execute(h: Helpers, p: Providers) returns (res: Outcome)
      modifies r`dlUrl, r`assetName
      ensures r.ExternalUrl != "" ==>
        && r.dlUrl == h.format(r.ExternalUrl, old(r.DataMap()))
        && r.assetName == Base(r.dlUrl)
        && res == Pass
      ensures r.ExternalUrl == "" && !r.relData.OtherPayload? ==>
        var a := DispatchAsset(p, r.relData, h.format(r.ReleaseFileName, old(r.DataMap())),
                               r.ReleaseFileName != "", r.Arch, r.Os, r.Version, r.project);
        r.assetName == a.name && r.dlUrl == a.url
      ensures r.ExternalUrl == "" && r.relData.OtherPayload? ==>
        r.assetName == old(r.assetName) && r.dlUrl == old(r.dlUrl)
      ensures r.ExternalUrl == "" ==>
        res == if r.dlUrl == "" then Fail(AssetNotFound(r.Repo)) else Pass
    {
      if r.ExternalUrl != "" {
        var data := r.GetDataMap();
        r.dlUrl := h.format(r.ExternalUrl, data);
        r.assetName := Base(r.dlUrl);
        return Pass;
      }

      if !r.relData.OtherPayload? {
        var found := LookUpAsset(h, p);
        r.assetName, r.dlUrl := found.name, found.url;
      }

      res := if r.dlUrl == "" then Fail(AssetNotFound(r.Repo)) else Pass;
    }

    /**
     * The provider dispatch of Execute: by the payload shape, the asset named
     * by the templated release file name when one is configured, otherwise
     * the selector's choice among the payload's assets.
     */
    method LookUpAsset(h: Helpers, p: Providers) returns (found: AssetRef)
      requires !r.relData.OtherPayload?
      ensures found == DispatchAsset(p, r.relData, h.format(r.ReleaseFileName, r.DataMap()),
                                     r.ReleaseFileName != "", r.Arch, r.Os, r.Version, r.project)
    {
      match r.relData {
      case GitHubRelease(assets) =>
        if r.ReleaseFileName != "" {
          var data := r.GetDataMap();
          var rFilename := h.format(r.ReleaseFileName, data);
          found := p.ghAssetByName(rFilename, assets);
        } else {
          found := p.selectAsset(r.Arch, r.Os, r.Version, r.project, p.ghAssetData(assets));
        }
      case GitLabRelease(links) =>
        if r.ReleaseFileName != "" {
          var data := r.GetDataMap();
          var rFilename := h.format(r.ReleaseFileName, data);
          found := p.glAssetByName(rFilename, links);
        } else {
          found := p.selectAsset(r.Arch, r.Os, r.Version, r.project, p.glAssetData(links));
        }
      }
    }
  }

  // ---------------------------------------------------------------------------
  // SetArtifactPathAction
  // ---------------------------------------------------------------------------

  /**
   * The directory creations SetArtifactPathAction attempts, in order: only the
   * publish directory when no bin directory is configured; otherwise the bin
   * directory first, and the publish directory only if that succeeded.
   */
  function CreationOrder(binPath: string, publishPath: string, faults: map<string, string>): (attempts: seq<string>)
    ensures |attempts| >= 1 && attempts[0] == (if binPath == "" then publishPath else binPath)
    ensures publishPath in attempts <==> binPath == "" || binPath !in faults || binPath == publishPath
  {
    if binPath == "" then [publishPath]
    else if binPath in faults then [binPath]
    else [binPath, publishPath]
  }

  /** The directories those creations add: each attempted one that does not fault. */
  function CreatedDirs(binPath: string, publishPath: string, faults: map<string, string>): (made: set<string>)
    ensures forall p :: p in made <==> p in CreationOrder(binPath, publishPath, faults) && p !in faults
  {
    var published := if publishPath in faults then {} else {publishPath};
    if binPath == "" then published
    else if binPath in faults then {}
    else {binPath} + published
  }

  /** The outcome of those creations: the failure that ends them, or success. */
  function CreationOutcome(binPath: string, publishPath: string, faults: map<string, string>): (res: Outcome)
    ensures res == Pass <==> forall p :: p in CreationOrder(binPath, publishPath, faults) ==> p !in faults
    ensures var attempts := CreationOrder(binPath, publishPath, faults);
      res != Pass ==>
        && (forall k :: 0 <= k < |attempts| - 1 ==> attempts[k] !in faults)
        && attempts[|attempts| - 1] in faults
        && res == Fail(FsError(faults[attempts[|attempts| - 1]]))
  {
    if binPath != "" && binPath in faults then Fail(FsError(faults[binPath]))
    else if publishPath in faults then Fail(FsError(faults[publishPath]))
    else Pass
  }

  /** SetArtifactPathAction: resolves the paths and creates the directories. */
  class SetArtifactPathAction {
    const r: BinmanRelease
    const releasePath: string
    const binPath: string

    /** AddSetArtifactPathAction */
    constructor (r: BinmanRelease, releasePath: string, binPath: string)
      ensures this.r == r && this.releasePath == releasePath && this.binPath == binPath
    {
      this.r := r;
      this.releasePath := releasePath;
      this.binPath := binPath;
    }

    /**
     * Computes the artifact, link and download paths, raises cleanupOnFailure
     * whatever follows, then creates the bin directory (when configured) and
     * the publish directory, stopping at the first failure.
     */
    method Execute(h: Helpers, fs: FileSystem) returns (res: Outcome)
      modifies r`artifactPath, r`linkPath, r`filepath, r`cleanupOnFailure
      modifies fs`dirs, fs`mkdirAttempts
      ensures r.artifactPath == Join(r.publishPath, ArtifactName(h, old(r.DataMap()), r.project,
                                       r.ReleaseFileName, r.ExtractFileName, r.ExternalUrl, r.assetName))
      ensures r.linkPath == Join(releasePath, if r.LinkName == "" then r.project else r.LinkName)
      ensures r.filepath == r.publishPath + [Sep] + r.assetName
      ensures r.cleanupOnFailure
      ensures var attempts := CreationOrder(binPath, r.publishPath, fs.mkdirFaults);
        && fs.mkdirAttempts == old(fs.mkdirAttempts) + attempts
        && fs.dirs == old(fs.dirs) + CreatedDirs(binPath, r.publishPath, fs.mkdirFaults)
      ensures res == CreationOutcome(binPath, r.publishPath, fs.mkdirFaults)
    {
      r.SetArtifactPath(h, releasePath, r.assetName);
      r.cleanupOnFailure := true;
      if binPath != "" {
        var err := fs.CreateDirectory(binPath);
        if err.Fail? {
          return err;
        }
      }
      res := fs.CreateDirectory(r.publishPath);
    }
  }

  /**
   * The publish directory is the idempotency marker: once artifact path
   * resolution has created it, a status check for the same descriptor and
   * release root reports that no update is needed.
   */
  method StatusAfterArtifactPath(artifact: SetArtifactPathAction, status: ReleaseStatusAction,
                                 h: Helpers, fs: FileSystem, metric: MetricVec)
    returns (made: Outcome, check: Outcome)
    requires artifact.r == status.r
    requires status.r.publishPath == PublishPath(status.releasePath, status.r.org, status.r.project, status.r.Version)
    requires status.r.publishPath !in fs.statFaults
    modifies artifact.r`artifactPath, artifact.r`linkPath, artifact.r`filepath, artifact.r`cleanupOnFailure
    modifies fs`dirs, fs`mkdirAttempts, status.r`publishPath, metric
    ensures made == Pass ==> check == Fail(NoUpdate)
  {
    made := artifact.Execute(h, fs);
    ghost var dir := status.r.publishPath;
    if made == Pass {
      assert dir in CreationOrder(artifact.binPath, dir, fs.mkdirFaults);
      assert dir in CreatedDirs(artifact.binPath, dir, fs.mkdirFaults);
      assert fs.Stat(dir) == Exists;
    }
    check := status.Execute(fs, metric);
  }
}
