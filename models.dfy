/** Whisper model variants, their cache directories, and the transcriber's model management. */
module Models {
  import opened Wrappers
  import opened Text

  type Sample = real

  /** The model variants, one per entry of the variant table. */
  datatype Variant = Tiny | Base | Small | Medium | Large | LargeTurbo

  /** The variants in the order the table lists them. */
  const AllVariants: seq<Variant> := [Tiny, Base, Small, Medium, Large, LargeTurbo]

  /** The table's key for a variant. */
  function VariantName(v: Variant): string {
    match v
    case Tiny => "tiny"
    case Base => "base"
    case Small => "small"
    case Medium => "medium"
    case Large => "large"
    case LargeTurbo => "large-turbo"
  }

  /** `name in MODEL_VARIANTS`, returning the variant the key names. */
  function ParseVariant(name: string): (r: Option<Variant>)
    ensures r.Some? ==> VariantName(r.value) == name
    ensures forall v :: VariantName(v) == name ==> r == Some(v)
  {
    if name == "tiny" then Some(Tiny)
    else if name == "base" then Some(Base)
    else if name == "small" then Some(Small)
    else if name == "medium" then Some(Medium)
    else if name == "large" then Some(Large)
    else if name == "large-turbo" then Some(LargeTurbo)
    else None
  }

  /** The common prefix of every repository id in the variant table. */
  const RepoPrefix: string := "mlx-community/whisper-"

  /** What follows the common prefix in a variant's repository id. */
  function RepoTail(v: Variant): string {
    match v
    case Tiny => "tiny"
    case Base => "base"
    case Small => "small"
    case Medium => "medium"
    case Large => "large-v3"
    case LargeTurbo => "large-v3-turbo"
  }

  /** The table's Hugging Face repository id for a variant ("mlx-community/whisper-tiny", ...,
      "mlx-community/whisper-large-v3-turbo"). */
  function Repo(v: Variant): (r: string)
    ensures |r| == |RepoPrefix| + |RepoTail(v)|
    ensures StartsWith(r, RepoPrefix)
  {
    RepoPrefix + RepoTail(v)
  }

  /** The repository transcription falls back to when no known variant is current. */
  const FallbackRepo: string := "mlx-community/whisper-tiny"

  /** Maps a full model name (such as a repository id) to the variant it names. */
  function ExtractModelVariant(modelName: string): Option<Variant>
  {
    VariantOfLowered(Lower(modelName))
  }

  /** The classification ignores case: a name and its lower-cased form name the same variant. */
  lemma ExtractModelVariantCaseInsensitive(modelName: string)
    ensures ExtractModelVariant(Lower(modelName)) == ExtractModelVariant(modelName)
  {
    LowerOfLowercase(Lower(modelName));
  }

  /** The keyword tests of the extraction, on an already lower-cased name. */
  function VariantOfLowered(name: string): (r: Option<Variant>)
    ensures r == Some(LargeTurbo) ==> Contains(name, "large-v3-turbo") || Contains(name, "large-turbo")
    ensures r == Some(Large) ==>
      Contains(name, "large") && !Contains(name, "large-v3-turbo") && !Contains(name, "large-turbo")
    ensures r == Some(Medium) ==> Contains(name, "medium") && !Contains(name, "large")
    ensures r == Some(Small) ==> Contains(name, "small") && !Contains(name, "medium") && !Contains(name, "large")
    ensures r == Some(Base) ==>
      Contains(name, "base") && !Contains(name, "small") && !Contains(name, "medium") && !Contains(name, "large")
    ensures r == Some(Tiny) ==>
      && Contains(name, "tiny") && !Contains(name, "base") && !Contains(name, "small")
      && !Contains(name, "medium") && !Contains(name, "large")
  {
    if Contains(name, "large-v3-turbo") || Contains(name, "large-turbo") then Some(LargeTurbo)
    else if Contains(name, "large-v3") || Contains(name, "large") then
      (if Contains(name, "large-v3") then ContainsLarge(name, "large-v3"); Some(Large) else Some(Large))
    else if Contains(name, "medium") then Some(Medium)
    else if Contains(name, "small") then Some(Small)
    else if Contains(name, "base") then Some(Base)
    else if Contains(name, "tiny") then Some(Tiny)
    else None
  }

  /** Each of the longer "large" names holds "large". */
  lemma {:induction false} ContainsLarge(s: string, t: string)
    requires t == "large-v3-turbo" || t == "large-turbo" || t == "large-v3"
    requires Contains(s, t)
    ensures Contains(s, "large")
    decreases |s|
  {
    if StartsWith(s, t) {
      assert s[..5] == t[..5] == "large";
    } else {
      ContainsLarge(s[1..], t);
    }
  }

  /** A name is unrecognised exactly when none of the five size words occurs in it. */
  lemma ExtractModelVariantNone(modelName: string)
    ensures ExtractModelVariant(modelName).None? <==>
      !Contains(Lower(modelName), "large") && !Contains(Lower(modelName), "medium")
      && !Contains(Lower(modelName), "small") && !Contains(Lower(modelName), "base")
      && !Contains(Lower(modelName), "tiny")
  {
    var name := Lower(modelName);
    if Contains(name, "large-v3-turbo") { ContainsLarge(name, "large-v3-turbo"); }
    if Contains(name, "large-turbo") { ContainsLarge(name, "large-turbo"); }
    if Contains(name, "large-v3") { ContainsLarge(name, "large-v3"); }
  }

  lemma RepoLowercase(v: Variant)
    ensures Lower(Repo(v)) == Repo(v)
  {
    var r, t := Repo(v), RepoTail(v);
    assert forall i :: 0 <= i < |RepoPrefix| ==> !IsUpper(RepoPrefix[i]);
    assert forall i :: 0 <= i < |t| ==> !IsUpper(t[i]);
    assert forall i :: 0 <= i < |r| ==> !IsUpper(r[i]);
    LowerOfLowercase(r);
  }

  /** A keyword that begins a variant's tail occurs in its repository id. */
  lemma TailAt(v: Variant, w: string)
    requires StartsWith(RepoTail(v), w)
    ensures Contains(Repo(v), w)
  {
    var r := Repo(v);
    assert r[22..22 + |w|] == RepoTail(v)[..|w|];
    ContainsAt(r, w, 22);
  }

  /** A name without "large" holds none of the longer "large" keywords. */
  lemma LacksLargeKeywords(s: string)
    requires !Contains(s, "large")
    ensures !Contains(s, "large-v3-turbo") && !Contains(s, "large-turbo") && !Contains(s, "large-v3")
  {
    if Contains(s, "large-v3-turbo") { ContainsLarge(s, "large-v3-turbo"); }
    if Contains(s, "large-turbo") { ContainsLarge(s, "large-turbo"); }
    if Contains(s, "large-v3") { ContainsLarge(s, "large-v3"); }
  }

  /** A keyword holding a character that the common prefix and the variant's tail both lack
      does not occur in the variant's id. */
  lemma RepoLacksKeyword(v: Variant, w: string, c: char)
    requires c == 'a' || c == 'b' || c == 'd' || c == 'g'
    requires c in w && c !in RepoTail(v)
    ensures !Contains(Repo(v), w)
  {
    assert c !in RepoPrefix;
    NotContainsMissingChar(Repo(v), w, c);
  }

  lemma TinyFacts()
    ensures var repo := Repo(Tiny);
      && Contains(repo, "tiny") && !Contains(repo, "large-v3-turbo") && !Contains(repo, "large-turbo")
      && !Contains(repo, "large-v3") && !Contains(repo, "large") && !Contains(repo, "medium")
      && !Contains(repo, "small") && !Contains(repo, "base")
  {
    assert 'a' !in RepoTail(Tiny) && 'd' !in RepoTail(Tiny);
    TailAt(Tiny, "tiny");
    RepoLacksKeyword(Tiny, "large", 'a');
    LacksLargeKeywords(Repo(Tiny));
    RepoLacksKeyword(Tiny, "medium", 'd');
    RepoLacksKeyword(Tiny, "small", 'a');
    RepoLacksKeyword(Tiny, "base", 'a');
  }

  /** "small" shares all its letters with "mlx-community/whisper-base", so its absence needs a
      position-by-position argument. */
  lemma BaseLacksSmall()
    ensures !Contains(Repo(Base), "small")
  {
    var s := Repo(Base);
    forall i
      ensures !MatchAt(s, "small", i)
    {
      if 0 <= i && i + 5 <= |s| {
        assert s[i..i + 5][0] == s[i] && s[i..i + 5][1] == s[i + 1];
        assert !(s[i] == 's' && s[i + 1] == 'm');
      }
    }
    NotContainsNoMatch(s, "small");
  }

  lemma BaseFacts()
    ensures var repo := Repo(Base);
      && Contains(repo, "base") && !Contains(repo, "large-v3-turbo") && !Contains(repo, "large-turbo")
      && !Contains(repo, "large-v3") && !Contains(repo, "large") && !Contains(repo, "medium")
      && !Contains(repo, "small")
  {
    assert 'g' !in RepoTail(Base) && 'd' !in RepoTail(Base);
    TailAt(Base, "base");
    RepoLacksKeyword(Base, "large", 'g');
    LacksLargeKeywords(Repo(Base));
    RepoLacksKeyword(Base, "medium", 'd');
    BaseLacksSmall();
  }

  lemma SmallFacts()
    ensures var repo := Repo(Small);
      && Contains(repo, "small") && !Contains(repo, "large-v3-turbo") && !Contains(repo, "large-turbo")
      && !Contains(repo, "large-v3") && !Contains(repo, "large") && !Contains(repo, "medium")
  {
    assert 'd' !in RepoTail(Small) && 'g' !in RepoTail(Small);
    TailAt(Small, "small");
    RepoLacksKeyword(Small, "large", 'g');
    LacksLargeKeywords(Repo(Small));
    RepoLacksKeyword(Small, "medium", 'd');
  }

  lemma MediumFacts()
    ensures var repo := Repo(Medium);
      && Contains(repo, "medium") && !Contains(repo, "large-v3-turbo") && !Contains(repo, "large-turbo")
      && !Contains(repo, "large-v3") && !Contains(repo, "large")
  {
    assert 'a' !in RepoTail(Medium);
    TailAt(Medium, "medium");
    RepoLacksKeyword(Medium, "large", 'a');
    LacksLargeKeywords(Repo(Medium));
  }

  lemma LargeFacts()
    ensures var repo := Repo(Large);
      Contains(repo, "large-v3") && !Contains(repo, "large-v3-turbo") && !Contains(repo, "large-turbo")
  {
    assert 'b' !in RepoTail(Large);
    TailAt(Large, "large-v3");
    RepoLacksKeyword(Large, "large-v3-turbo", 'b');
    RepoLacksKeyword(Large, "large-turbo", 'b');
  }

  /** Every repository id of the variant table maps back to its own variant. The turbo id also
      holds "large" (see TurboRepoAlsoNamesLarge), so this relies on the turbo names being
      tested first. */
  lemma ExtractModelVariantInverts(v: Variant)
    ensures ExtractModelVariant(Repo(v)) == Some(v)
  {
    RepoLowercase(v);
    match v
    case Tiny => TinyFacts();
    case Base => BaseFacts();
    case Small => SmallFacts();
    case Medium => MediumFacts();
    case Large => LargeFacts();
    case LargeTurbo => TailAt(LargeTurbo, "large-v3-turbo");
  }

  /** Testing "large" before the turbo names would misclassify the turbo model. */
  lemma TurboRepoAlsoNamesLarge()
    ensures Contains(Repo(LargeTurbo), "large")
  {
    TailAt(LargeTurbo, "large");
  }

  /** The cache directory name of a repository: its id with "/" replaced by "_". */
  function LocalDirName(repoId: string): (r: string)
    ensures |r| == |repoId|
    ensures '/' !in r
    ensures forall i :: 0 <= i < |repoId| && repoId[i] != '/' ==> r[i] == repoId[i]
    ensures forall i :: 0 <= i < |repoId| && repoId[i] == '/' ==> r[i] == '_'
  {
    ReplaceChar(repoId, '/', '_')
  }

  /** `Path(cache_dir) / repo_id.replace("/", "_")`, the one path that the listing, the download
      and the load all use for a variant. */
  function ModelPath(cacheDir: string, v: Variant): (r: string)
    ensures StartsWith(r, cacheDir + "/")
  {
    cacheDir + "/" + LocalDirName(Repo(v))
  }

  /** The directory name keeps the part of the id after the common prefix. */
  lemma LocalDirTail(v: Variant)
    ensures LocalDirName(Repo(v))[22..] == RepoTail(v)
  {
    var r, d, t := Repo(v), LocalDirName(Repo(v)), RepoTail(v);
    assert '/' !in t;
    forall j | 0 <= j < |t|
      ensures d[22 + j] == t[j]
    {
      assert r[22 + j] == t[j];
    }
  }

  /** No two variants share a cache directory. */
  lemma ModelPathsDistinct(cacheDir: string, v1: Variant, v2: Variant)
    requires v1 != v2
    ensures ModelPath(cacheDir, v1) != ModelPath(cacheDir, v2)
  {
    LocalDirTail(v1);
    LocalDirTail(v2);
    var k := |cacheDir| + 1;
    var p1, p2 := ModelPath(cacheDir, v1), ModelPath(cacheDir, v2);
    assert p1[k..][22..] == RepoTail(v1);
    assert p2[k..][22..] == RepoTail(v2);
  }

  lemma AllVariantsListed(v: Variant)
    ensures v in AllVariants
  {
    match v
    case Tiny => assert AllVariants[0] == v;
    case Base => assert AllVariants[1] == v;
    case Small => assert AllVariants[2] == v;
    case Medium => assert AllVariants[3] == v;
    case Large => assert AllVariants[4] == v;
    case LargeTurbo => assert AllVariants[5] == v;
  }

  datatype ModelInfo = ModelInfo(repoId: string, downloaded: bool, path: Option<string>, active: bool)

  /** Where a download can fail: creating the cache directory, or fetching the snapshot. */
  datatype DownloadFault = NoDownloadFault | MakeDirsFails | SnapshotFails

  datatype TranscribeError = NoModelLoaded

  class WhisperTranscriber {
    const cacheDir: string
    /** The variant whose weights are held. */
    var currentModel: Option<Variant>
    /** Whether a model object is held. */
    var modelLoaded: bool

    constructor (cacheDir: string)
      ensures this.cacheDir == cacheDir && currentModel == None && !modelLoaded
    {
      this.cacheDir := cacheDir;
      currentModel := None;
      modelLoaded := false;
    }

    /** One entry per variant. `populated` is the set of paths that exist and are non-empty. */
    method GetAvailableModels(populated: set<string>) returns (info: map<Variant, ModelInfo>)
      ensures forall v :: v in info
      ensures forall v :: v in info ==>
        && info[v].repoId == Repo(v)
        && info[v].downloaded == (ModelPath(cacheDir, v) in populated)
        && info[v].path == (if info[v].downloaded then Some(ModelPath(cacheDir, v)) else None)
        && info[v].active == (currentModel == Some(v))
    {
      info := map[];
      var i := 0;
      while i < |AllVariants|
        invariant 0 <= i <= |AllVariants|
        invariant forall v :: v in info <==> v in AllVariants[..i]
        invariant forall v :: v in info ==>
          && info[v].repoId == Repo(v)
          && info[v].downloaded == (ModelPath(cacheDir, v) in populated)
          && info[v].path == (if info[v].downloaded then Some(ModelPath(cacheDir, v)) else None)
          && info[v].active == (currentModel == Some(v))
      {
        var variant := AllVariants[i];
        var path := ModelPath(cacheDir, variant);
        var isDownloaded := path in populated;
        info := info[variant := ModelInfo(Repo(variant), isDownloaded,
                                          if isDownloaded then Some(path) else None,
                                          currentModel == Some(variant))];
        i := i + 1;
      }
      assert AllVariants[..i] == AllVariants;
      forall v: Variant
        ensures v in info
      {
        AllVariantsListed(v);
      }
    }

    /** Downloads a variant. `progress` is what the optional callback receives, in order. */
    method DownloadModel(modelName: string, withCallback: bool, fault: DownloadFault)
      returns (ok: bool, progress: seq<real>)
      ensures ParseVariant(modelName).None? ==> !ok && progress == []
      ensures ParseVariant(modelName).Some? ==> ok == (fault == NoDownloadFault)
      ensures !withCallback ==> progress == []
      ensures withCallback && ParseVariant(modelName).Some? ==>
        && (ok <==> progress == [0.1, 1.0])
        && (!ok ==> |progress| > 0 && progress[|progress| - 1] == -1.0)
        && (fault == MakeDirsFails ==> progress == [-1.0])
        && (fault == SnapshotFails ==> progress == [0.1, -1.0])
    {
      progress := [];
      var variant := ParseVariant(modelName);
      if variant.None? {
        return false, progress;
      }
      if fault == MakeDirsFails {
        if withCallback { progress := progress + [-1.0]; }
        return false, progress;
      }
      if withCallback { progress := progress + [0.1]; }
      if fault == SnapshotFails {
        if withCallback {
          progress := progress + [-1.0];
          assert progress[1] != [0.1, 1.0][1];
        }
        return false, progress;
      }
      if withCallback { progress := progress + [1.0]; }
      ok := true;
    }

    /** Loads a variant, downloading it first when its directory is missing or empty.
        `pathLoads`/`repoLoads` say whether the loader accepts the local path / the repository id;
        `loadedFrom` is the argument that the successful loader call received. */
    method LoadModel(modelName: string, populated: set<string>, fault: DownloadFault,
                     pathLoads: bool, repoLoads: bool)
      returns (ok: bool, loadedFrom: Option<string>)
      modifies this
      ensures ok == (ParseVariant(modelName).Some?
                     && (ModelPath(cacheDir, ParseVariant(modelName).value) in populated || fault == NoDownloadFault)
                     && (pathLoads || repoLoads))
      ensures ok ==> currentModel == ParseVariant(modelName) && modelLoaded
      ensures ok ==> loadedFrom == Some(if pathLoads then ModelPath(cacheDir, ParseVariant(modelName).value)
                                        else Repo(ParseVariant(modelName).value))
      ensures !ok ==> loadedFrom == None && currentModel == old(currentModel) && modelLoaded == old(modelLoaded)
    {
      loadedFrom := None;
      var variant := ParseVariant(modelName);
      if variant.None? {
        return false, loadedFrom;
      }
      var path := ModelPath(cacheDir, variant.value);
      if path !in populated {
        var downloaded, _ := DownloadModel(modelName, false, fault);
        if !downloaded {
          return false, loadedFrom;
        }
      }
      if pathLoads {
        modelLoaded := true;
        currentModel := variant;
        return true, Some(path);
      }
      if repoLoads {
        modelLoaded := true;
        currentModel := variant;
        return true, Some(Repo(variant.value));
      }
      ok := false;
    }

    /** The repository the transcription call names: the current variant's, else the fallback. */
    function ActiveRepo(): (r: string)
      reads this
      ensures currentModel.Some? ==> r == Repo(currentModel.value)
      ensures currentModel.None? ==> r == FallbackRepo
    {
      if currentModel.Some? then Repo(currentModel.value) else FallbackRepo
    }

    /** Transcribes `audio`. `engine(audio, repo)` is the recogniser's text, or None when it raises. */
    method Transcribe(audio: seq<Sample>, engine: (seq<Sample>, string) -> Option<string>)
      returns (r: Result<string, TranscribeError>)
      ensures r.Failure? <==> !modelLoaded && currentModel.None?
      ensures r.Success? ==> r.value == engine(audio, ActiveRepo()).GetOr("")
    {
      if !modelLoaded && currentModel.None? {
        return Failure(NoModelLoaded);
      }
      var repo := ActiveRepo();
      var text := engine(audio, repo);
      r := Success(text.GetOr(""));
    }

    /** The text the completion callback of an asynchronous transcription receives. */
    method TranscribeAsync(audio: seq<Sample>, engine: (seq<Sample>, string) -> Option<string>)
      returns (delivered: string)
      ensures !modelLoaded && currentModel.None? ==> delivered == ""
      ensures modelLoaded || currentModel.Some? ==> delivered == engine(audio, ActiveRepo()).GetOr("")
    {
      var r := Transcribe(audio, engine);
      delivered := if r.Success? then r.value else "";
    }
  }
}
