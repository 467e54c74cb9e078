/**
 * How LazyCorpusLoader.__load finds a corpus root: nltk.data.find on
 * "corpora/<name>" and on "corpora/<zip name>", in an order set by the
 * module flag TRY_ZIPFILE_FIRST.
 */
module Locate {
  import opened Results
  import ZipPath

  /** The LookupError nltk.data.find raises, naming the resource it could not find. */
  datatype LookupError = LookupError(resource: string)

  /**
   * The data search path as nltk.data.find sees it at the moment of a call:
   * the resource paths that resolve, each with the location it resolves to.
   */
  type Finder = map<string, string>

  /** nltk.data.find(resource): the location, or the LookupError for that resource. */
  function Find(finder: Finder, resource: string): Result<string, LookupError>
  {
    if resource in finder then Ok(finder[resource]) else Err(LookupError(resource))
  }

  /** The module's default for TRY_ZIPFILE_FIRST. */
  const TryZipfileFirstDefault := false

  /** The primary candidate, 'corpora/%s' % name. */
  function PrimaryCandidate(name: string): string
  {
    "corpora/" + name
  }

  /** The archive candidate, 'corpora/%s' % zip_name. */
  function ZipCandidate(name: string): string
  {
    "corpora/" + ZipPath.ZipName(name)
  }

  /** A resolution: the root or the error raised, and the paths passed to find, in call order. */
  datatype Resolution = Resolution(root: Result<string, LookupError>, tried: seq<string>)

  /**
   * The root-resolution policy. Zip-first: one lookup of the archive
   * candidate, whose failure is re-raised at once (the primary lookup after
   * the bare raise is dead code). Primary-first: the primary candidate, then
   * only if it fails the archive candidate; when both fail the primary's
   * error is re-raised.
   */
  function Resolve(finder: Finder, name: string, zipFirst: bool): (r: Resolution)
    ensures 1 <= |r.tried| <= 2
    ensures r.tried[0] == if zipFirst then ZipCandidate(name) else PrimaryCandidate(name)
    ensures |r.tried| == 2 ==> !zipFirst && r.tried[0] !in finder && r.tried[1] == ZipCandidate(name)
    ensures r.root.Ok? <==> r.tried[|r.tried| - 1] in finder
    ensures r.root.Ok? ==> r.root.value == finder[r.tried[|r.tried| - 1]]
    ensures r.root.Err? ==> r.root.error == LookupError(r.tried[0])
  {
    var primary := PrimaryCandidate(name);
    var zip := ZipCandidate(name);
    if zipFirst then
      Resolution(Find(finder, zip), [zip])
    else
      match Find(finder, primary)
      case Ok(root) => Resolution(Ok(root), [primary])
      case Err(e) =>
        match Find(finder, zip)
        case Ok(root) => Resolution(Ok(root), [primary, zip])
        case Err(_) => Resolution(Err(e), [primary, zip])
  }

  /** Primary-first, primary resolves: it is the root and the archive candidate is never tried. */
  lemma PrimaryFirstHit(finder: Finder, name: string)
    requires PrimaryCandidate(name) in finder
    ensures Resolve(finder, name, false) == Resolution(Ok(finder[PrimaryCandidate(name)]), [PrimaryCandidate(name)])
  {
  }

  /**
   * Primary-first, primary missing: the archive candidate is tried next; its
   * location is the root, and if it is missing too the primary's error is raised.
   */
  lemma PrimaryFirstFallback(finder: Finder, name: string)
    requires PrimaryCandidate(name) !in finder
    ensures Resolve(finder, name, false).tried == [PrimaryCandidate(name), ZipCandidate(name)]
    ensures Resolve(finder, name, false).root ==
      if ZipCandidate(name) in finder then Ok(finder[ZipCandidate(name)])
      else Err(LookupError(PrimaryCandidate(name)))
  {
  }

  /** Zip-first: exactly one lookup, of the archive candidate, whose outcome is the outcome. */
  lemma ZipFirstSingleLookup(finder: Finder, name: string)
    ensures Resolve(finder, name, true) == Resolution(Find(finder, ZipCandidate(name)), [ZipCandidate(name)])
  {
  }

  /**
   * The asymmetry of the two policies: when only the primary candidate
   * resolves, primary-first finds it and zip-first fails with the archive
   * candidate's error.
   */
  lemma PolicyAsymmetry(finder: Finder, name: string)
    requires PrimaryCandidate(name) in finder && ZipCandidate(name) !in finder
    ensures Resolve(finder, name, false).root == Ok(finder[PrimaryCandidate(name)])
    ensures Resolve(finder, name, true).root == Err(LookupError(ZipCandidate(name)))
  {
  }

  /** When a root is found: primary-first finds one iff either candidate resolves, zip-first iff the archive one does. */
  lemma ResolveSucceeds(finder: Finder, name: string)
    ensures Resolve(finder, name, false).root.Ok? <==> PrimaryCandidate(name) in finder || ZipCandidate(name) in finder
    ensures Resolve(finder, name, true).root.Ok? <==> ZipCandidate(name) in finder
  {
  }

  /** The two candidates are different paths, so the fallback is a genuine second lookup. */
  lemma {:induction false} CandidatesDiffer(name: string)
    ensures PrimaryCandidate(name) != ZipCandidate(name)
  {
    var z := ZipPath.ZipName(name);
    var seg := ZipPath.MatchName(name).segment;
    assert z == seg + ".zip/" + name + "/";
    assert |z| > |name|;
  }
}
