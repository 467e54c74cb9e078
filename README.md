# Lazy corpus loader, modelled in Dafny

NLTK gives every corpus a `LazyCorpusLoader` (`nltk/corpus/util.py`): a cheap
proxy that stands in for a corpus reader until its first attribute access.
On that access it finds the corpus root with `nltk.data.find`, building the
reader `reader_cls(root, *args, **kwargs)`, and turns itself into the reader
by taking over its `__dict__` and `__class__`. `_unload` turns it back into a
fresh proxy with the same name, reader class and arguments.

The model has four modules (plus `Results`, which holds Option and Result):

- `ZipPath` (`zip_path.dfy`): the archive name from
  `re.sub(r'(([^/]*)(/.*)?)', r'\2.zip/\1/', name)`. It holds the regex match
  as groups, the rewritten name, and an inverse that reads the name back.
- `Locate` (`locate.dfy`): `nltk.data.find` as a map from resource paths to
  locations, and the two-candidate root-resolution policy. `TRY_ZIPFILE_FIRST`
  is a parameter. The result records which paths were looked up, in order.
- `PyRepr` (`py_repr.dfy`): Python 3's `repr` of a `str` (quote choice and
  escapes), its inverse, and the `(not loaded yet)` text of `__repr__`.
- `LazyCorpus` (`lazy_corpus.dfy`): the class `LazyCorpusLoader`. The swap of
  `__dict__`/`__class__` becomes a `state` field that is `Unloaded` or
  `Loaded(corpus)`. Two ghost logs, `finds` and `builds`, record every call to
  the locator and to the reader constructor.
  `SampleCorpusScenario` is a client scenario for one loader. It goes
  through bases probe, first access, second access, unload and reload.

There is no separate failed state: `__load` assigns nothing before the reader
exists (line 72), so a failed load leaves the proxy unloaded and it can be
retried.

## Model

| member | source | states |
|---|---|---|
| ZipPath.SlashIndex | nltk/corpus/util.py:48 | the end of group `([^/]*)`: every character before it is not `/`, and the character at it, if any, is `/` |
| ZipPath.MatchName | nltk/corpus/util.py:48 | for a name with no newline after its first `/`, the groups form a match of the pattern covering the whole name |
| ZipPath.MatchUnique | nltk/corpus/util.py:48 | any whole-name match of the pattern is the one `MatchName` gives, so the substitution is well defined |
| ZipPath.ZipName | nltk/corpus/util.py:48 | the substitution `\2.zip/\1/` on the match; its behaviour is stated by ZipNameShape, ZipNameSplit and the NameOfZip round trip |
| ZipPath.ZipNameShape | nltk/corpus/util.py:48 | the zip name is the text before the first `/`, then `.zip/`, then the name, then `/` |
| ZipPath.ZipNameSplit | nltk/corpus/util.py:48 | for a `/`-free segment followed by an empty or `/`-led rest, the zip name is segment + `.zip/` + whole name + `/` |
| ZipPath.ZipNameNoSlash | nltk/corpus/util.py:48 | a name without `/` gives `name.zip/name/` |
| ZipPath.ZipNameExamplePlain | nltk/corpus/util.py:48 | `brown` gives `brown.zip/brown/` |
| ZipPath.ZipNameExampleNested | nltk/corpus/util.py:48 | `a/b/c` gives `a.zip/a/b/c/` |
| ZipPath.NameOfZipRoundTrip | nltk/corpus/util.py:48 | the name can be read back from its zip name |
| ZipPath.NameOfZipSound | nltk/corpus/util.py:48 | whatever the reader accepts is exactly the zip name of the name it returns |
| ZipPath.ZipNameInjective | nltk/corpus/util.py:48 | different corpus names have different zip names |
| Locate.Find | nltk/corpus/util.py:51-59 | `nltk.data.find` over an abstract search path: the location of a resolvable resource, else the LookupError naming it; Resolve's contract states how the policy uses it |
| Locate.PrimaryCandidate | nltk/corpus/util.py:57 | the path `corpora/<name>`; its role is stated by Resolve, PrimaryFirstHit and PrimaryFirstFallback |
| Locate.ZipCandidate | nltk/corpus/util.py:51-59 | the path `corpora/<zip name>`; its role is stated by Resolve, ZipFirstSingleLookup and CandidatesDiffer |
| Locate.Resolve | nltk/corpus/util.py:49-60 | one or two lookups; the first is the zip candidate under zip-first and the primary otherwise; a second lookup happens only under primary-first after the primary failed, and it is the zip candidate; a root is found iff the last lookup resolves, and it is that location; an error is always the first candidate's LookupError |
| Locate.PrimaryFirstHit | nltk/corpus/util.py:56-57 | primary-first with `corpora/<name>` resolvable: that is the root and only one lookup is made |
| Locate.PrimaryFirstFallback | nltk/corpus/util.py:58-60 | primary-first with the primary missing: the zip candidate is tried second; its location is the root, or else the primary's error is raised |
| Locate.ZipFirstSingleLookup | nltk/corpus/util.py:49-54 | zip-first: exactly one lookup, of the zip candidate; its failure is raised and the primary is never tried |
| Locate.PolicyAsymmetry | nltk/corpus/util.py:49-60 | when only the primary resolves, primary-first finds it but zip-first fails with the zip candidate's error |
| Locate.ResolveSucceeds | nltk/corpus/util.py:49-60 | primary-first finds a root iff either candidate resolves; zip-first iff the zip candidate does |
| Locate.CandidatesDiffer | nltk/corpus/util.py:57-59 | the primary and zip candidates are different paths |
| PyRepr.UnescapeEscape | nltk/corpus/util.py:101-102 | the escapes `%r` writes inside quotes can be read back to the original string |
| PyRepr.StrReprRoundTrip | nltk/corpus/util.py:101-102 | reading back `repr(s)`, quotes included, gives `s` |
| PyRepr.StrReprPlain | nltk/corpus/util.py:101-102 | a path with no quote, backslash or control character is written between single quotes, unchanged |
| PyRepr.NotLoadedRepr | nltk/corpus/util.py:100-102 | the `%` format of `__repr__`; its shape is stated by NotLoadedReprPlain and NotLoadedReprMentions |
| PyRepr.NotLoadedReprPlain | nltk/corpus/util.py:100-102 | for a name with no quote, backslash or control character, the text is `<ReaderCls in '.../corpora/<name>' (not loaded yet)>` |
| PyRepr.NotLoadedReprMentions | nltk/corpus/util.py:100-102 | the not-loaded text holds the reader class name, then the repr of `.../corpora/<name>`, from which the path can be read back |
| LazyCorpus.GetAttr | nltk/corpus/util.py:98 | `getattr` on the built corpus: its attribute, or AttributeError; Access's contract states when it is used |
| LazyCorpus.LoadOutcome | nltk/corpus/util.py:46-63 | a load succeeds iff a root is found and the reader builds on it, giving that reader; when no root is found the error is the first candidate's LookupError; when the constructor raises, its own error is passed on unchanged |
| LazyCorpus.LoadBuilds | nltk/corpus/util.py:62-63 | a load calls the reader constructor at most once: exactly once when a root is found, with that root and the stored args and kwargs |
| LazyCorpus.LoadFromArchive | nltk/corpus/util.py:58-63 | primary-first with only the zip candidate present: the reader is built once, on the zip root |
| LazyCorpus.LoadBothMissing | nltk/corpus/util.py:56-63 | primary-first with both candidates missing: no reader is built and the primary's LookupError is raised |
| LazyCorpus.LazyCorpusLoader.constructor | nltk/corpus/util.py:38-44 | stores name, reader class, args and kwargs unchanged; starts unloaded with no find or constructor call |
| LazyCorpus.LazyCorpusLoader.Load | nltk/corpus/util.py:46-84 | logs exactly the lookups of the resolution and at most one constructor call with the resolved root and stored arguments; becomes `Loaded` with the built reader on success; on any failure, returns that error and stays unloaded |
| LazyCorpus.LazyCorpusLoader.Access | nltk/corpus/util.py:86-98 | for names an unloaded proxy does not have itself; loaded: forwards to the corpus with no find or constructor call; unloaded `__bases__`: AttributeError, no load; otherwise: one load, then the attribute from the new corpus, or the load's error with the proxy still unloaded |
| LazyCorpus.LazyCorpusLoader.Unload | nltk/corpus/util.py:78-82 | leaves the proxy unloaded with the same name, class and arguments and makes no find or constructor call; before a load it is the no-op of lines 104-108 |
| LazyCorpus.LazyCorpusLoader.Repr | nltk/corpus/util.py:100-102 | unloaded: the not-loaded text for the reader class name and corpus name; loaded: the corpus's own repr; a function, so it never loads |

`LazyCorpusLoader.Valid` is the invariant the methods keep. Every logged
constructor call carries the stored args and kwargs. A loaded proxy holds what
the last logged call built. So a reload after `_unload` replays the
original arguments.

## Left out

- `nltk.data.find` is a map from resource path to location, passed to each access. The real search over data directories and zip files is external. The map can differ between calls, so an install between attempts is covered.
- Reader classes and corpora are abstract. A reader class is a name plus a total function from (root, args, kwargs) to a built corpus or a raised error. The constructor is therefore deterministic: a reload on the same root with the same arguments builds an equal corpus, whereas Python rereads the corpus files and would see any change to them. A corpus is its repr text plus a finite map of attributes. `CorpusReader` internals are external.
- `assert issubclass(reader_cls, CorpusReader)` (line 40) is a runtime type check. The `ReaderClass` type stands for it.
- `TRY_ZIPFILE_FIRST` is a module global. The model passes it as the `zipFirst` parameter; its default is `Locate.TryZipfileFirstDefault`.
- Line 54 comes after a bare `raise`, so it is unreachable. The model has no counterpart for it.
- Literal `__dict__`/`__class__` reassignment is left out, and so is open-ended attribute forwarding. In their place are the `state` field and `GetAttr` on the corpus's attribute map. The model also leaves out the aliasing of the proxy's `__dict__` with the corpus's, which puts `_unload` into the corpus's own dict too.
- Access covers only names the proxy itself lacks, which is when Python calls `__getattr__`; its `requires` excludes the names in `LazyCorpus.ProxyOwnAttributes` while unloaded (those Python 3's `object` and this class provide; Python 2's slightly different set is not modelled). The proxy's own attributes appear as model members: `__name__` and the private fields are the `name`, `readerCls`, `args` and `kwargs` constants, `_unload` is `Unload`, and `__repr__` is `Repr`.
- `_make_bound_method` (lines 111-123) is Python 2/3 bound-method machinery. The model keeps only what it does for behaviour: `Unload` has the loaded behaviour once a load has succeeded.
- `gc.collect()` (line 82): memory reclamation is not observable. The model just drops the corpus from the state.
- Concurrency: the source has no locking, and every operation is a sequential method.
- ZipPath.ZipName: this is the single whole-name substitution that Python 2 era `re.sub` performs. From Python 3.7 on, `re.sub` also replaces the empty match at the end of the string and appends `.zip//`. The model does not include that.
- ZipPath.MatchName: a name with a newline after its first `/` is outside the regex model, because the `.` of `(/.*)` stops at a newline (`[^/]*` does match one). `ZipName` still gives segment + `.zip/` + name + `/` for such a name, which the real substitution would not.
- PyRepr.StrRepr: this follows Python 3 `repr` of `str`. It covers the quote choice, backslash and quote escapes, `\t` `\n` `\r`, and `\xhh` for the other ASCII control characters. Two things are not modelled: the escaping of non-printable non-ASCII characters, which are taken to be printable, and the `u` prefix that Python 2 prints for unicode literals.
