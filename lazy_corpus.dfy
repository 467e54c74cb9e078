/**
 * LazyCorpusLoader: a proxy that stands for a corpus reader until the first
 * attribute access, then locates the corpus, builds the reader and becomes
 * it; _unload turns it back into a fresh, unloaded proxy for the same corpus.
 *
 * Python's swap of __dict__ and __class__ is the transition of the state
 * field between Unloaded and Loaded. The two ghost logs record every call
 * made to nltk.data.find and to the reader constructor, so that "no load",
 * "exactly once" and "with the same arguments" can be stated.
 */
module LazyCorpus {
  import opened Results
  import Locate
  import PyRepr

  /** What an access or a load may raise, passed on as the collaborator produced it. */
  datatype Error =
    | Lookup(lookup: Locate.LookupError)   // nltk.data.find found neither candidate
    | Attribute(attr: string)              // AttributeError
    | ReaderFailure(reason: string)        // the reader constructor raised

  /** A constructed corpus reader as the proxy sees it: its repr and the attributes it answers. */
  datatype Corpus<V> = Corpus(text: string, attributes: map<string, V>)

  /**
   * A CorpusReader subclass: its __name__ and its constructor
   * reader_cls(root, *args, **kwargs), which either builds a reader or raises.
   */
  datatype ReaderClass<!V> = ReaderClass(
    className: string,
    build: (string, seq<V>, map<string, V>) -> Result<Corpus<V>, string>)

  /** One call of the reader constructor, with the arguments it received. */
  datatype BuildCall<V> = BuildCall(root: string, args: seq<V>, kwargs: map<string, V>)

  /** Whether the proxy has become its corpus. */
  datatype State<V> = Unloaded | Loaded(corpus: Corpus<V>)

  /**
   * The names an unloaded proxy answers itself, so that Python never calls
   * __getattr__ for them: the attributes __init__ sets, those the class
   * defines, and those every Python 3 object inherits from object.
   */
  const ProxyOwnAttributes: set<string> := {
    "_LazyCorpusLoader__name", "__name__", "_LazyCorpusLoader__reader_cls",
    "_LazyCorpusLoader__args", "_LazyCorpusLoader__kwargs",
    "__init__", "_LazyCorpusLoader__load", "__getattr__", "__repr__", "_unload",
    "__dict__", "__module__", "__doc__", "__weakref__",
    "__class__", "__delattr__", "__dir__", "__eq__", "__format__", "__ge__",
    "__getattribute__", "__gt__", "__hash__", "__init_subclass__", "__le__", "__lt__",
    "__ne__", "__new__", "__reduce__", "__reduce_ex__", "__setattr__", "__sizeof__",
    "__str__", "__subclasshook__"
  }

  /** The one attribute __getattr__ refuses without loading. */
  const BasesAttr := "__bases__"

  /** getattr on a built corpus: the attribute, or AttributeError. */
  function GetAttr<V>(c: Corpus<V>, attr: string): Result<V, Error>
  {
    if attr in c.attributes then Ok(c.attributes[attr]) else Err(Attribute(attr))
  }

  /** What __load yields: the built corpus, or the error it raises. */
  function LoadOutcome<V>(cls: ReaderClass<V>, name: string, args: seq<V>, kwargs: map<string, V>,
                          finder: Locate.Finder, zipFirst: bool): (r: Result<Corpus<V>, Error>)
    ensures var res := Locate.Resolve(finder, name, zipFirst);
      r.Ok? <==> res.root.Ok? && cls.build(res.root.value, args, kwargs).Ok?
    ensures var res := Locate.Resolve(finder, name, zipFirst);
      r.Ok? ==> cls.build(res.root.value, args, kwargs) == Ok(r.value)
    ensures var res := Locate.Resolve(finder, name, zipFirst);
      res.root.Err? ==> r == Err(Lookup(Locate.LookupError(res.tried[0])))
    ensures var res := Locate.Resolve(finder, name, zipFirst);
      res.root.Ok? && cls.build(res.root.value, args, kwargs).Err? ==>
        r == Err(ReaderFailure(cls.build(res.root.value, args, kwargs).error))
  {
    var res := Locate.Resolve(finder, name, zipFirst);
    match res.root
    case Err(e) => Err(Lookup(e))
    case Ok(root) =>
      match cls.build(root, args, kwargs)
      case Ok(c) => Ok(c)
      case Err(m) => Err(ReaderFailure(m))
  }

  /** The constructor calls one __load makes: one, with the resolved root, when a root is found; none otherwise. */
  function LoadBuilds<V>(name: string, args: seq<V>, kwargs: map<string, V>,
                         finder: Locate.Finder, zipFirst: bool): (b: seq<BuildCall<V>>)
    ensures |b| <= 1
    ensures |b| == 1 <==> Locate.Resolve(finder, name, zipFirst).root.Ok?
    ensures |b| == 1 ==> b[0] == BuildCall(Locate.Resolve(finder, name, zipFirst).root.value, args, kwargs)
  {
    var res := Locate.Resolve(finder, name, zipFirst);
    if res.root.Ok? then [BuildCall(res.root.value, args, kwargs)] else []
  }

  /** Primary-first with the primary candidate missing and the archive present: the reader is built on the archive root. */
  lemma LoadFromArchive<V>(cls: ReaderClass<V>, name: string, args: seq<V>, kwargs: map<string, V>, finder: Locate.Finder)
    requires Locate.PrimaryCandidate(name) !in finder && Locate.ZipCandidate(name) in finder
    ensures LoadBuilds(name, args, kwargs, finder, false) == [BuildCall(finder[Locate.ZipCandidate(name)], args, kwargs)]
    ensures LoadOutcome(cls, name, args, kwargs, finder, false) ==
      match cls.build(finder[Locate.ZipCandidate(name)], args, kwargs)
      case Ok(c) => Ok(c)
      case Err(m) => Err(ReaderFailure(m))
  {
    Locate.PrimaryFirstFallback(finder, name);
  }

  /** Primary-first with both candidates missing: no reader is built and the primary's LookupError is raised. */
  lemma LoadBothMissing<V>(cls: ReaderClass<V>, name: string, args: seq<V>, kwargs: map<string, V>, finder: Locate.Finder)
    requires Locate.PrimaryCandidate(name) !in finder && Locate.ZipCandidate(name) !in finder
    ensures LoadBuilds(name, args, kwargs, finder, false) == []
    ensures LoadOutcome(cls, name, args, kwargs, finder, false) ==
      Err(Lookup(Locate.LookupError(Locate.PrimaryCandidate(name))))
  {
    Locate.PrimaryFirstFallback(finder, name);
  }

  class LazyCorpusLoader<V> {
    /** The corpus name, also exposed as __name__. */
    const name: string
    const readerCls: ReaderClass<V>
    const args: seq<V>
    const kwargs: map<string, V>
    var state: State<V>

    /** Every path passed to nltk.data.find by this loader, in call order. */
    ghost var finds: seq<string>
    /** Every call of the reader constructor made by this loader, in call order. */
    ghost var builds: seq<BuildCall<V>>

    /**
     * Every constructor call replays the stored args and kwargs; a loaded
     * proxy holds what the last of them built.
     */
    ghost predicate Valid()
      reads this
    {
      && (forall i :: 0 <= i < |builds| ==> builds[i] == BuildCall(builds[i].root, args, kwargs))
      && (state.Loaded? ==> builds != [] && readerCls.build(builds[|builds| - 1].root, args, kwargs) == Ok(state.corpus))
    }

    /** __init__: stores its arguments and neither locates nor builds anything. */
    constructor (name: string, readerCls: ReaderClass<V>, args: seq<V>, kwargs: map<string, V>)
      ensures Valid()
      ensures this.name == name && this.readerCls == readerCls && this.args == args && this.kwargs == kwargs
      ensures state.Unloaded? && finds == [] && builds == []
    {
      this.name := name;
      this.readerCls := readerCls;
      this.args := args;
      this.kwargs := kwargs;
      state := Unloaded;
      finds := [];
      builds := [];
    }

    /**
     * __load: resolve the root, build the reader with the stored arguments,
     * then become it. Nothing is assigned before the reader exists, so a
     * failure leaves the proxy unloaded and ready for another attempt.
     */
    method Load(finder: Locate.Finder, zipFirst: bool) returns (failure: Option<Error>)
      requires Valid() && state.Unloaded?
      modifies this
      ensures Valid()
      ensures finds == old(finds) + Locate.Resolve(finder, name, zipFirst).tried
      ensures builds == old(builds) + LoadBuilds(name, args, kwargs, finder, zipFirst)
      ensures match LoadOutcome(readerCls, name, args, kwargs, finder, zipFirst)
        case Ok(c) => failure == None && state == Loaded(c)
        case Err(e) => failure == Some(e) && state.Unloaded?
    {
      var res := Locate.Resolve(finder, name, zipFirst);
      finds := finds + res.tried;
      if res.root.Err? {
        return Some(Lookup(res.root.error));
      }
      var root := res.root.value;
      builds := builds + [BuildCall(root, args, kwargs)];
      var built := readerCls.build(root, args, kwargs);
      if built.Err? {
        return Some(ReaderFailure(built.error));
      }
      state := Loaded(built.value);
      failure := None;
    }

    /**
     * Attribute access for names the proxy itself lacks (the names an
     * unloaded proxy has are the constants, Unload and Repr of this class).
     * On a loaded proxy Python no longer reaches
     * __getattr__: the corpus answers directly. On an unloaded one
     * __getattr__ refuses __bases__ without loading, and otherwise loads
     * and then asks the new corpus.
     */
    method Access(attr: string, finder: Locate.Finder, zipFirst: bool) returns (r: Result<V, Error>)
      requires Valid()
      requires state.Unloaded? ==> attr !in ProxyOwnAttributes
      modifies this
      ensures Valid()
      ensures old(state).Loaded? ==>
        state == old(state) && finds == old(finds) && builds == old(builds) &&
        r == GetAttr(old(state).corpus, attr)
      ensures old(state).Unloaded? && attr == BasesAttr ==>
        state.Unloaded? && finds == old(finds) && builds == old(builds) &&
        r == Err(Attribute(BasesAttr))
      ensures old(state).Unloaded? && attr != BasesAttr ==>
        && finds == old(finds) + Locate.Resolve(finder, name, zipFirst).tried
        && builds == old(builds) + LoadBuilds(name, args, kwargs, finder, zipFirst)
        && match LoadOutcome(readerCls, name, args, kwargs, finder, zipFirst)
           case Ok(c) => state == Loaded(c) && r == GetAttr(c, attr)
           case Err(e) => state.Unloaded? && r == Err(e)
    {
      if state.Loaded? {
        return GetAttr(state.corpus, attr);
      }
      if attr == BasesAttr {
        return Err(Attribute(BasesAttr));
      }
      var failure := Load(finder, zipFirst);
      if failure.Some? {
        return Err(failure.value);
      }
      r := GetAttr(state.corpus, attr);
    }

    /**
     * _unload. After a load it is the bound closure that turns the object
     * back into LazyCorpusLoader(name, reader_cls, *args, **kwargs), dropping
     * the corpus; before any successful load it is the class's no-op.
     */
    method Unload()
      requires Valid()
      modifies this
      ensures Valid()
      ensures state.Unloaded? && finds == old(finds) && builds == old(builds)
    {
      if state.Loaded? {
        state := Unloaded;
      }
    }

    /** The proxy's repr: the corpus's own once loaded, else the not-loaded text; it never loads. */
    function Repr(): (s: string)
      reads this
      ensures state.Unloaded? ==> s == PyRepr.NotLoadedRepr(readerCls.className, name)
      ensures state.Loaded? ==> s == state.corpus.text
    {
      match state
      case Loaded(c) => c.text
      case Unloaded => PyRepr.NotLoadedRepr(readerCls.className, name)
    }
  }

  /**
   * A client scenario for one loader: the first access locates and builds once,
   * later accesses cost nothing, __bases__ and repr never load, and after
   * _unload the next access builds again with the same arguments.
   */
  method SampleCorpusScenario()
  {
    var cls := ReaderClass("PlaintextCorpusReader",
      (root: string, a: seq<int>, k: map<string, int>) =>
        Ok(Corpus("<PlaintextCorpusReader>", map["items" := 7, "count" := |a|])));
    var primary := Locate.PrimaryCandidate("sample-corpus");
    var finder: Locate.Finder := map[primary := "/data/corpora/sample-corpus"];
    var zipFirst := Locate.TryZipfileFirstDefault;
    Locate.PrimaryFirstHit(finder, "sample-corpus");
    var loaded := Corpus("<PlaintextCorpusReader>", map["items" := 7, "count" := 0]);
    assert LoadOutcome(cls, "sample-corpus", [], map[], finder, zipFirst) == Ok(loaded);
    var loader := new LazyCorpusLoader("sample-corpus", cls, [], map[]);

    var b := loader.Access(BasesAttr, finder, zipFirst);
    assert b == Err(Attribute(BasesAttr)) && loader.finds == [] && loader.builds == [];

    var items := loader.Access("items", finder, zipFirst);
    assert items == Ok(7);
    assert loader.finds == [primary];
    assert loader.builds == [BuildCall("/data/corpora/sample-corpus", [], map[])];

    var count := loader.Access("count", finder, zipFirst);
    assert count == Ok(0) && |loader.finds| == 1 && |loader.builds| == 1;

    loader.Unload();
    assert loader.state.Unloaded?;
    var again := loader.Access("items", finder, zipFirst);
    assert again == items && |loader.builds| == 2 && loader.builds[1] == loader.builds[0];
  }
}
