/**
 * The release descriptor of one tracked repository and the rules that derive
 * its local paths: the org/project split, the versioned publish directory,
 * the predicted artifact path, the link path, the known-URL override, the
 * templating data and the post-extraction artifact finder.
 *
 * Collaborators the descriptor only calls (the templating engine, the
 * archive-type detector and the tar/zip name patterns) are parameters,
 * bundled in `Helpers`.
 */
module Binman {
  import opened FilePaths

  /** Opaque collaborators of the path rules. */
  datatype Helpers = Helpers(
    format: (string, map<string, string>) -> string,  // formatString / templating.TemplateString
    fileType: string -> string,                        // findfType: "tar", "zip" or anything else
    isTarName: string -> bool,                         // TarRegEx matches the name
    isZipName: string -> bool)                         // ZipRegEx matches the name

  /** One GitHub release asset and one GitLab release link, as the providers return them. */
  datatype GhAsset = GhAsset(name: string, browserDownloadUrl: string)
  datatype GlLink = GlLink(name: string, url: string)

  /** The provider's release payload: a GitHub release, a GitLab link list, or anything else. */
  datatype ReleaseData =
    | GitHubRelease(assets: seq<GhAsset>)
    | GitLabRelease(links: seq<GlLink>)
    | OtherPayload

  /** One entry visited by filepath.WalkDir, in walk order; `perm` is mode & os.ModePerm. */
  datatype Entry = Entry(name: string, path: string, isDir: bool, perm: int)

  /** The permission bits 0755 (rwxr-xr-x). */
  const ExecPerm: int := 7 * 64 + 5 * 8 + 5

  /** The link name and link path a descriptor ends up with. */
  datatype LinkTarget = LinkTarget(name: string, path: string)

  // ---------------------------------------------------------------------------
  // Templating data (getDataMap)
  // ---------------------------------------------------------------------------

  /** The keys the templating data offers. */
  const TemplateKeys: set<string> :=
    {"version", "os", "arch", "org", "project", "artifactPath", "linkpath", "filename"}

  /** The templating data: each key carries the descriptor field of the same meaning. */
  function TemplateData(version: string, os: string, arch: string, org: string, project: string,
                        artifactPath: string, linkPath: string, fileName: string): (m: map<string, string>)
    ensures m.Keys == TemplateKeys
    ensures m["version"] == version && m["os"] == os && m["arch"] == arch
    ensures m["org"] == org && m["project"] == project
    ensures m["artifactPath"] == artifactPath && m["linkpath"] == linkPath && m["filename"] == fileName
  {
    map["version" := version, "os" := os, "arch" := arch, "org" := org, "project" := project,
        "artifactPath" := artifactPath, "linkpath" := linkPath, "filename" := fileName]
  }

  // ---------------------------------------------------------------------------
  // getOR
  // ---------------------------------------------------------------------------

  /**
   * The org is the text before the first '/', the project the segment after it
   * (up to the next '/' or the end).
   */
  lemma OrgProjectOfRepo(repo: string)
    requires Sep in repo
    ensures |Split(repo, Sep)| >= 2
    ensures var org, project := Split(repo, Sep)[0], Split(repo, Sep)[1];
      && Sep !in org && Sep !in project
      && |org| + 1 + |project| <= |repo|
      && repo[..|org| + 1 + |project|] == org + [Sep] + project
      && (|org| + 1 + |project| < |repo| ==> repo[|org| + 1 + |project|] == Sep)
  {
    var n := Split(repo, Sep);
    SplitHasTwo(repo, Sep);
    SplitSegmentsFree(repo, Sep);
    JoinSplit(repo, Sep);
    assert repo == n[0] + [Sep] + JoinWith(n[1..], Sep);
    if |n| > 2 {
      assert JoinWith(n[1..], Sep) == n[1] + [Sep] + JoinWith(n[2..], Sep) by {
        assert n[1..][1..] == n[2..];
      }
      assert repo == (n[0] + [Sep] + n[1]) + [Sep] + JoinWith(n[2..], Sep);
    } else {
      assert repo == n[0] + [Sep] + n[1];
    }
  }

  // ---------------------------------------------------------------------------
  // setPublisPath
  // ---------------------------------------------------------------------------

  /** The versioned publish directory: root (one trailing '/' dropped)/repos/org/project/tag. */
  function PublishPath(root: string, org: string, project: string, tag: string): string
  {
    Join(Join(Join(Join(TrimSuffix(root, "/"), "repos"), org), project), tag)
  }

  /** With non-empty parts the publish directory is the plain '/'-joined string. */
  lemma PublishPathLayout(root: string, org: string, project: string, tag: string)
    requires TrimSuffix(root, "/") != "" && org != "" && project != "" && tag != ""
    ensures PublishPath(root, org, project, tag)
         == TrimSuffix(root, "/") + "/repos/" + org + "/" + project + "/" + tag
  {
  }

  /** The last four segments of a publish directory are "repos", org, project and tag. */
  lemma PublishPathSegments(root: string, org: string, project: string, tag: string)
    requires TrimSuffix(root, "/") != ""
    requires IsElement(org) && IsElement(project) && IsElement(tag)
    ensures Split(PublishPath(root, org, project, tag), Sep)
         == Split(TrimSuffix(root, "/"), Sep) + ["repos", org, project, tag]
  {
    var r := TrimSuffix(root, "/");
    var p1 := Join(r, "repos");
    var p2 := Join(p1, org);
    var p3 := Join(p2, project);
    SplitOfJoin(r, "repos");
    SplitOfJoin(p1, org);
    SplitOfJoin(p2, project);
    SplitOfJoin(p3, tag);
    assert Split(r, Sep) + ["repos"] + [org] + [project] + [tag]
        == Split(r, Sep) + ["repos", org, project, tag];
  }

  /**
   * The publish directory identifies (org, project, version): two descriptors
   * share one only when they agree on all three, whatever their roots.
   */
  lemma PublishPathInjective(root1: string, org1: string, project1: string, tag1: string,
                             root2: string, org2: string, project2: string, tag2: string)
    requires TrimSuffix(root1, "/") != "" && TrimSuffix(root2, "/") != ""
    requires IsElement(org1) && IsElement(project1) && IsElement(tag1)
    requires IsElement(org2) && IsElement(project2) && IsElement(tag2)
    requires PublishPath(root1, org1, project1, tag1) == PublishPath(root2, org2, project2, tag2)
    ensures org1 == org2 && project1 == project2 && tag1 == tag2
  {
    PublishPathSegments(root1, org1, project1, tag1);
    PublishPathSegments(root2, org2, project2, tag2);
    var s1 := Split(TrimSuffix(root1, "/"), Sep) + ["repos", org1, project1, tag1];
    var s2 := Split(TrimSuffix(root2, "/"), Sep) + ["repos", org2, project2, tag2];
    assert s1 == s2;
    assert s1[|s1| - 1] == tag1 && s1[|s1| - 2] == project1 && s1[|s1| - 3] == org1;
    assert s2[|s2| - 1] == tag2 && s2[|s2| - 2] == project2 && s2[|s2| - 3] == org2;
  }

  /** The publish directory's base name is the tag. */
  lemma PublishPathBase(root: string, org: string, project: string, tag: string)
    requires IsElement(tag)
    ensures Base(PublishPath(root, org, project, tag)) == tag
  {
    BaseOfJoin(Join(Join(Join(TrimSuffix(root, "/"), "repos"), org), project), tag);
  }

  // ---------------------------------------------------------------------------
  // setArtifactPath
  // ---------------------------------------------------------------------------

  /** findfType reported an archive. */
  predicate IsArchive(fileType: string)
  {
    fileType == "tar" || fileType == "zip"
  }

  /**
   * The file name, under the publish directory, predicted for the artifact:
   * first ReleaseFileName (templated), then ExtractFileName, then ExternalUrl,
   * then the provider's asset; for the last two an archive asset predicts a
   * binary named after the project.
   */
  function ArtifactName(h: Helpers, data: map<string, string>, project: string,
                        releaseFileName: string, extractFileName: string,
                        externalUrl: string, assetName: string): string
  {
    if releaseFileName != "" then h.format(releaseFileName, data)
    else if extractFileName != "" then extractFileName
    else if externalUrl != "" then
      (if IsArchive(h.fileType(assetName)) then project else Base(externalUrl))
    else
      (if IsArchive(h.fileType(assetName)) then project else assetName)
  }

  /**
   * The rules form a strict priority list: a set ReleaseFileName decides alone;
   * ExtractFileName is consulted only when ReleaseFileName is empty, and
   * ExternalUrl only when both are; an archive asset then always predicts the
   * project name.
   */
  lemma ArtifactNamePriority(h: Helpers, data: map<string, string>, project: string,
                             releaseFileName: string, extractFileName: string, extractFileName': string,
                             externalUrl: string, externalUrl': string, assetName: string)
    ensures releaseFileName != "" ==>
      ArtifactName(h, data, project, releaseFileName, extractFileName, externalUrl, assetName)
        == ArtifactName(h, data, project, releaseFileName, extractFileName', externalUrl', assetName)
        == h.format(releaseFileName, data)
    ensures releaseFileName == "" && extractFileName != "" ==>
      ArtifactName(h, data, project, releaseFileName, extractFileName, externalUrl, assetName)
        == ArtifactName(h, data, project, releaseFileName, extractFileName, externalUrl', assetName)
        == extractFileName
    ensures releaseFileName == "" && extractFileName == "" && IsArchive(h.fileType(assetName)) ==>
      ArtifactName(h, data, project, releaseFileName, extractFileName, externalUrl, assetName) == project
    ensures releaseFileName == "" && extractFileName == "" && !IsArchive(h.fileType(assetName)) ==>
      ArtifactName(h, data, project, releaseFileName, extractFileName, externalUrl, assetName)
        == if externalUrl != "" then Base(externalUrl) else assetName
  {
  }

  /**
   * When the predicted name is a plain element and the publish directory has no
   * trailing '/', the artifact sits directly in the publish directory under that name.
   */
  lemma ArtifactInPublishPath(publishPath: string, name: string)
    requires publishPath != "" && publishPath[|publishPath| - 1] != Sep
    requires IsElement(name)
    ensures Dir(Join(publishPath, name)) == publishPath
    ensures Base(Join(publishPath, name)) == name
  {
    DirOfJoin(publishPath, name);
    BaseOfJoin(publishPath, name);
  }

  // ---------------------------------------------------------------------------
  // findTarget: the walk
  // ---------------------------------------------------------------------------

  /** The walk ignores directories and names matching the tar or zip patterns. */
  predicate Ignored(h: Helpers, e: Entry)
  {
    e.isDir || h.isTarName(e.name) || h.isZipName(e.name)
  }

  /** An entry the walk takes as an exact match for `target`. */
  predicate IsExact(h: Helpers, e: Entry, target: string)
  {
    !Ignored(h, e) && e.name == target
  }

  /** An entry the walk takes as an executable fallback. */
  predicate IsExecutable(h: Helpers, e: Entry)
  {
    !Ignored(h, e) && e.perm == ExecPerm
  }

  /** The name the walk looks for: the templated artifact base name, plus ".exe" on Windows. */
  function TargetName(templated: string, os: string): string
  {
    if os == "windows" then templated + ".exe" else templated
  }

  /**
   * The artifact path after walking `entries` from `current`, as the walk
   * callback computes it one entry at a time: an exact match stops the walk,
   * a 0755 file (unless only exact matches are wanted) replaces the guess.
   */
  function Walk(h: Helpers, entries: seq<Entry>, target: string, exactOnly: bool, current: string): string
    decreases |entries|
  {
    if entries == [] then current
    else
      var e := entries[0];
      if Ignored(h, e) then Walk(h, entries[1..], target, exactOnly, current)
      else if e.name == target then e.path
      else if !exactOnly && e.perm == ExecPerm then Walk(h, entries[1..], target, exactOnly, e.path)
      else Walk(h, entries[1..], target, exactOnly, current)
  }

  /** One step of the walk, from the entry at index i. */
  lemma WalkStep(h: Helpers, entries: seq<Entry>, i: nat, target: string, exactOnly: bool, current: string)
    requires i < |entries|
    ensures var e := entries[i];
      Walk(h, entries[i..], target, exactOnly, current)
        == if Ignored(h, e) then Walk(h, entries[i + 1..], target, exactOnly, current)
           else if e.name == target then e.path
           else if !exactOnly && e.perm == ExecPerm then Walk(h, entries[i + 1..], target, exactOnly, e.path)
           else Walk(h, entries[i + 1..], target, exactOnly, current)
  {
    assert entries[i..][0] == entries[i] && entries[i..][1..] == entries[i + 1..];
  }

  /**
   * The walk callback of findTarget run over the entries in order; Walk is its
   * specification.
   */
  method WalkEntries(h: Helpers, entries: seq<Entry>, target: string, exactOnly: bool, start: string)
    returns (path: string)
    ensures path == Walk(h, entries, target, exactOnly, start)
  {
    path := start;
    var i := 0;
    while i < |entries|
      invariant 0 <= i <= |entries|
      invariant Walk(h, entries, target, exactOnly, start) == Walk(h, entries[i..], target, exactOnly, path)
    {
      var e := entries[i];
      WalkStep(h, entries, i, target, exactOnly, path);
      if e.isDir || h.isTarName(e.name) || h.isZipName(e.name) {
        // directories and archives are skipped
      } else if target == e.name {
        return e.path;
      } else if exactOnly {
        // only an exact match may change the artifact path
      } else if e.perm == ExecPerm {
        path := e.path;
      }
      i := i + 1;
    }
  }

  /** Reference definition, scanning from the end: the path of the last executable entry. */
  function LastExecutable(h: Helpers, entries: seq<Entry>, default: string): string
    decreases |entries|
  {
    if entries == [] then default
    else
      var e := entries[|entries| - 1];
      if IsExecutable(h, e) then e.path else LastExecutable(h, entries[..|entries| - 1], default)
  }

  /** The first exact match decides the walk, whatever precedes or follows it. */
  lemma {:induction false} WalkFirstExact(h: Helpers, entries: seq<Entry>, target: string,
                                          exactOnly: bool, current: string, k: nat)
    requires k < |entries| && IsExact(h, entries[k], target)
    requires forall j :: 0 <= j < k ==> !IsExact(h, entries[j], target)
    ensures Walk(h, entries, target, exactOnly, current) == entries[k].path
    decreases k
  {
    if k > 0 {
      assert !IsExact(h, entries[0], target);
      var next := if !Ignored(h, entries[0]) && !exactOnly && entries[0].perm == ExecPerm
                  then entries[0].path else current;
      forall j | 0 <= j < k - 1 ensures !IsExact(h, entries[1..][j], target) {
        assert entries[1..][j] == entries[j + 1];
      }
      WalkFirstExact(h, entries[1..], target, exactOnly, next, k - 1);
    }
  }

  /** Moving the first entry into the default of LastExecutable. */
  lemma {:induction false} LastExecutableCons(h: Helpers, entries: seq<Entry>, default: string)
    requires entries != []
    ensures LastExecutable(h, entries, default)
         == LastExecutable(h, entries[1..],
                           if IsExecutable(h, entries[0]) then entries[0].path else default)
    decreases |entries|
  {
    if |entries| > 1 {
      var init := entries[..|entries| - 1];
      assert init[0] == entries[0];
      assert init[1..] == entries[1..][..|entries[1..]| - 1];
      LastExecutableCons(h, init, default);
    }
  }

  /**
   * Without an exact match the walk keeps the starting path when only exact
   * matches are wanted, and otherwise ends on the last 0755 entry (or the
   * starting path if there is none).
   */
  lemma {:induction false} WalkWithoutExact(h: Helpers, entries: seq<Entry>, target: string,
                                            exactOnly: bool, current: string)
    requires forall j :: 0 <= j < |entries| ==> !IsExact(h, entries[j], target)
    ensures Walk(h, entries, target, exactOnly, current)
         == if exactOnly then current else LastExecutable(h, entries, current)
    decreases |entries|
  {
    if entries != [] {
      forall j | 0 <= j < |entries| - 1 ensures !IsExact(h, entries[1..][j], target) {
        assert entries[1..][j] == entries[j + 1];
      }
      assert !IsExact(h, entries[0], target);
      var next := if !exactOnly && IsExecutable(h, entries[0]) then entries[0].path else current;
      WalkWithoutExact(h, entries[1..], target, exactOnly, next);
      if !exactOnly {
        LastExecutableCons(h, entries, current);
      }
    }
  }

  /** Without any executable entry the reference scan keeps its default. */
  lemma {:induction false} LastExecutableNone(h: Helpers, entries: seq<Entry>, default: string)
    requires forall j :: 0 <= j < |entries| ==> !IsExecutable(h, entries[j])
    ensures LastExecutable(h, entries, default) == default
    decreases |entries|
  {
    if entries != [] {
      var init := entries[..|entries| - 1];
      assert !IsExecutable(h, entries[|entries| - 1]);
      forall j | 0 <= j < |init| ensures !IsExecutable(h, init[j]) {
        assert init[j] == entries[j];
      }
      LastExecutableNone(h, init, default);
    }
  }

  /** With neither an exact match nor an executable entry, the artifact path is unchanged. */
  lemma WalkNoMatch(h: Helpers, entries: seq<Entry>, target: string, exactOnly: bool, current: string)
    requires forall j :: 0 <= j < |entries| ==> !IsExact(h, entries[j], target)
    requires forall j :: 0 <= j < |entries| ==> !IsExecutable(h, entries[j])
    ensures Walk(h, entries, target, exactOnly, current) == current
  {
    WalkWithoutExact(h, entries, target, exactOnly, current);
    LastExecutableNone(h, entries, current);
  }

  /**
   * The walk's result is the starting path or the path of an entry it did not
   * ignore; with exact matching only, the path of an exact match.
   */
  lemma {:induction false} WalkOrigin(h: Helpers, entries: seq<Entry>, target: string,
                                      exactOnly: bool, current: string)
    ensures var r := Walk(h, entries, target, exactOnly, current);
      r == current || exists j :: 0 <= j < |entries| && !Ignored(h, entries[j]) && r == entries[j].path
    ensures var r := Walk(h, entries, target, exactOnly, current);
      exactOnly ==> r == current || exists j :: 0 <= j < |entries| && IsExact(h, entries[j], target) && r == entries[j].path
    decreases |entries|
  {
    if entries != [] {
      var e := entries[0];
      var next := if !Ignored(h, e) && !exactOnly && e.perm == ExecPerm then e.path else current;
      WalkOrigin(h, entries[1..], target, exactOnly, next);
      var r := Walk(h, entries, target, exactOnly, current);
      if !(!Ignored(h, e) && e.name == target) {
        assert r == Walk(h, entries[1..], target, exactOnly, next);
        if r != current && r != next {
          var j :| 0 <= j < |entries[1..]| && !Ignored(h, entries[1..][j]) && r == entries[1..][j].path;
          assert entries[1..][j] == entries[j + 1];
          if exactOnly {
            var i :| 0 <= i < |entries[1..]| && IsExact(h, entries[1..][i], target) && r == entries[1..][i].path;
            assert entries[1..][i] == entries[i + 1];
          }
        }
      }
    }
  }

  // ---------------------------------------------------------------------------
  // findTarget: the link update after the walk
  // ---------------------------------------------------------------------------

  /**
   * After discovery the link is renamed unless the link name already equals the
   * artifact's base name or is the repo sentinel; an empty link name then
   * becomes the artifact's base name.
   */
  function LinkAfterDiscovery(linkName: string, repo: string, linkPath: string, artifactPath: string): LinkTarget
  {
    if Base(artifactPath) != linkName && linkName != repo then
      var name := if linkName == "" then Base(artifactPath) else linkName;
      LinkTarget(name, Dir(linkPath) + [Sep] + name)
    else
      LinkTarget(linkName, linkPath)
  }

  /**
   * The repo sentinel and a link name equal to the artifact's base name keep
   * the link; an unset link name (with a non-empty repo) always becomes the
   * artifact's base name, in the link path's directory.
   */
  lemma LinkDiscoveryCases(linkName: string, repo: string, linkPath: string, artifactPath: string)
    ensures linkName == repo || linkName == Base(artifactPath) ==>
      LinkAfterDiscovery(linkName, repo, linkPath, artifactPath) == LinkTarget(linkName, linkPath)
    ensures linkName == "" && repo != "" ==>
      LinkAfterDiscovery(linkName, repo, linkPath, artifactPath)
        == LinkTarget(Base(artifactPath), Dir(linkPath) + [Sep] + Base(artifactPath))
  {
  }

  /** A renamed link path ends in the new link name. */
  lemma LinkPathEndsInName(linkName: string, repo: string, linkPath: string, artifactPath: string)
    requires linkName == "" || Sep !in linkName
    requires Base(artifactPath) != [Sep]
    ensures var l := LinkAfterDiscovery(linkName, repo, linkPath, artifactPath);
      l.path != linkPath || l.name != linkName ==> Base(l.path) == l.name
  {
    var l := LinkAfterDiscovery(linkName, repo, linkPath, artifactPath);
    if Base(artifactPath) != linkName && linkName != repo {
      BaseOfChild(Dir(linkPath), l.name);
    }
  }

  /** Running discovery's link update again on its own result changes nothing. */
  lemma LinkDiscoveryIdempotent(linkName: string, repo: string, linkPath: string, artifactPath: string)
    requires Sep !in linkName
    requires Base(artifactPath) != [Sep]
    ensures var l := LinkAfterDiscovery(linkName, repo, linkPath, artifactPath);
      LinkAfterDiscovery(l.name, repo, l.path, artifactPath) == l
  {
    var l := LinkAfterDiscovery(linkName, repo, linkPath, artifactPath);
    if Base(artifactPath) != linkName && linkName != repo && linkName != "" {
      DirOfSibling(linkPath, linkName);
    }
  }

  // ---------------------------------------------------------------------------
  // The descriptor
  // ---------------------------------------------------------------------------

  /** BinmanRelease: the user's intent for one repository and the fields the pipeline resolves. */
  class BinmanRelease {
    // configuration
    var Os: string
    var Arch: string
    var ExternalUrl: string
    var ExtractFileName: string
    var ReleaseFileName: string
    var Repo: string
    var LinkName: string
    var Version: string
    var QueryType: string
    var ReleasePath: string
    var SourceIdentifier: string
    var watchExposeMetrics: bool

    // the provider payload, and the tag of the release held in githubData
    // (*githubData.TagName), which is the template's "version"
    var relData: ReleaseData
    var tagName: string

    // resolved by the pipeline
    var assetName: string
    var cleanupOnFailure: bool
    var dlUrl: string
    var filepath: string
    var org: string
    var project: string
    var publishPath: string
    var linkPath: string
    var artifactPath: string

    /** The templating data of the current state. */
    function DataMap(): map<string, string>
      reads this`tagName, this`Os, this`Arch, this`org, this`project
      reads this`artifactPath, this`linkPath, this`assetName
    {
      TemplateData(tagName, Os, Arch, org, project, artifactPath, linkPath, assetName)
    }

    /** getDataMap: fills a fresh map key by key from the current fields. */
    method GetDataMap() returns (m: map<string, string>)
      ensures m == DataMap()
      ensures m.Keys == TemplateKeys
    {
      m := map[];
      m := m["version" := tagName];
      m := m["os" := Os];
      m := m["arch" := Arch];
      m := m["org" := org];
      m := m["project" := project];
      m := m["artifactPath" := artifactPath];
      m := m["linkpath" := linkPath];
      m := m["filename" := assetName];
    }

    /** getOR: org and project are the first two '/'-segments of Repo. */
    method GetOR()
      requires Sep in Repo
      modifies this`org, this`project
      ensures |Split(Repo, Sep)| >= 2
      ensures org == Split(Repo, Sep)[0] && project == Split(Repo, Sep)[1]
    {
      SplitHasTwo(Repo, Sep);
      var n := Split(Repo, Sep);
      org := n[0];
      project := n[1];
    }

    /** knownUrlCheck: a repo listed in `knownUrls` takes the listed URL as its external URL. */
    method KnownUrlCheck(knownUrls: map<string, string>)
      modifies this`ExternalUrl
      ensures Repo in knownUrls ==> ExternalUrl == knownUrls[Repo]
      ensures Repo !in knownUrls ==> ExternalUrl == old(ExternalUrl)
    {
      if Repo in knownUrls {
        ExternalUrl := knownUrls[Repo];
      }
    }

    /** setPublisPath: the versioned publish directory; no other field changes. */
    method SetPublisPath(releasePath: string, tag: string)
      modifies this`publishPath
      ensures publishPath == PublishPath(releasePath, org, project, tag)
    {
      var root := TrimSuffix(releasePath, "/");
      publishPath := Join(Join(Join(Join(root, "repos"), org), project), tag);
    }

    /**
     * setArtifactPath: the predicted artifact path under the publish directory,
     * the link path under `releasePath` (named LinkName, or the project when it
     * is unset) and the download file path, which uses the assetName field.
     */
    method SetArtifactPath(h: Helpers, releasePath: string, assetName: string)
      modifies this`artifactPath, this`linkPath, this`filepath
      ensures artifactPath == Join(publishPath, ArtifactName(h, old(DataMap()), project,
                                     ReleaseFileName, ExtractFileName, ExternalUrl, assetName))
      ensures linkPath == Join(releasePath, if LinkName == "" then project else LinkName)
      ensures filepath == publishPath + [Sep] + this.assetName
    {
      var linkName: string;
      if LinkName == "" {
        linkName := project;
      } else {
        linkName := LinkName;
      }

      var fileName: string;
      if ReleaseFileName != "" {
        var data := GetDataMap();
        fileName := h.format(ReleaseFileName, data);
      } else if ExtractFileName != "" {
        fileName := ExtractFileName;
      } else if ExternalUrl != "" {
        var t := h.fileType(assetName);
        if t == "tar" || t == "zip" {
          fileName := project;
        } else {
          fileName := Base(ExternalUrl);
        }
      } else {
        var t := h.fileType(assetName);
        if t == "tar" || t == "zip" {
          fileName := project;
        } else {
          fileName := assetName;
        }
      }
      artifactPath := Join(publishPath, fileName);

      linkPath := Join(releasePath, linkName);
      filepath := publishPath + [Sep] + this.assetName;
    }

    /**
     * findTarget: walks the extracted entries for the real executable, then
     * renames the link after it unless the user pinned the link name.
     */
    method FindTarget(h: Helpers, entries: seq<Entry>)
      modifies this`artifactPath, this`LinkName, this`linkPath
      ensures artifactPath == Walk(h, entries, TargetName(h.format(Base(old(artifactPath)), old(DataMap())), Os),
                                   ExtractFileName != "", old(artifactPath))
      ensures LinkTarget(LinkName, linkPath)
           == LinkAfterDiscovery(old(LinkName), Repo, old(linkPath), artifactPath)
    {
      var data := GetDataMap();
      var targetFileName := h.format(Base(artifactPath), data);
      if Os == "windows" {
        targetFileName := targetFileName + ".exe";
      }
      var path := WalkEntries(h, entries, targetFileName, ExtractFileName != "", artifactPath);
      artifactPath := path;
      RenameLink();
    }

    /**
     * The end of findTarget: unless the link name is the repo sentinel or
     * already the artifact's base name, the link is renamed in its directory,
     * after the artifact when no link name was set.
     */
    method RenameLink()
      modifies this`LinkName, this`linkPath
      ensures LinkTarget(LinkName, linkPath) == LinkAfterDiscovery(old(LinkName), Repo, old(linkPath), artifactPath)
    {
      var base := Base(artifactPath);
      if base != LinkName && LinkName != Repo {
        if LinkName == "" {
          LinkName := base;
        }
        linkPath := Dir(linkPath) + [Sep] + LinkName;
      }
    }
  }

  /**
   * The name findTarget looks for is the templated base name, with ".exe"
   * appended exactly once when the target system is Windows.
   */
  lemma TargetNameSuffix(templated: string, os: string)
    ensures os == "windows" ==>
      && |TargetName(templated, os)| == |templated| + 4
      && TargetName(templated, os)[..|templated|] == templated
      && TargetName(templated, os)[|templated|..] == ".exe"
    ensures os != "windows" ==> TargetName(templated, os) == templated
  {
  }
}
