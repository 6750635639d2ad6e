/** The detail and listing views: class by full path, class by name in the
    latest version, module, version and home page. */
module Views {
  import opened Store
  import opened Query
  import opened Resolver

  // =====================================================================
  // KlassDetailView: a class named by (package, version, module, class)
  // =====================================================================

  /** Case-insensitive equality on every field of a class tuple. */
  predicate KlassKeyIExact(a: KlassKey, b: KlassKey) {
    && IExact(a.package, b.package)
    && IExact(a.version, b.version)
    && IExact(a.moduleName, b.moduleName)
    && IExact(a.klassName, b.klassName)
  }

  /** The filter of `get_precise_object`: every field equal. */
  function KlassPreciseFilter(key: KlassKey): Klass -> bool {
    (k: Klass) => KlassKeyOf(k) == key
  }

  /** The filter of `get_fuzzy_object`: every field `__iexact`. */
  function KlassFuzzyFilter(key: KlassKey): Klass -> bool {
    (k: Klass) => KlassKeyIExact(KlassKeyOf(k), key)
  }

  function KlassPrecise(st: Store, key: KlassKey): Get<Klass> {
    Single(Filter(st.klasses, KlassPreciseFilter(key)))
  }

  function KlassFuzzy(st: Store, key: KlassKey): Get<Klass> {
    Single(Filter(st.klasses, KlassFuzzyFilter(key)))
  }

  /** `KlassDetailView.get_object` with the `push_state_url` it leaves for
      the context. A class found without redirect carries exactly the
      requested tuple; a redirected one carries a tuple that differs from
      the request only in letter case, and the pushed address is built from
      the stored fields, never from the request. */
  function KlassDetail(st: Store, key: KlassKey): (r: Response<Resolved<Klass>>)
    ensures r.Render? ==> r.context.obj in st.klasses
    ensures r.Render? && r.context.pushStateUrl.None? ==> KlassKeyOf(r.context.obj) == key
    ensures r.Render? && r.context.pushStateUrl.Some? ==>
              && KlassKeyIExact(KlassKeyOf(r.context.obj), key)
              && KlassKeyOf(r.context.obj) != key
              && r.context.pushStateUrl == Some(KlassUrl(KlassKeyOf(r.context.obj)))
    ensures r.Raises? ==> r.exc == MultipleObjectsReturned
  {
    TwoStep(KlassPrecise(st, key), KlassFuzzy(st, key), KlassUrlOf)
  }

  /** Exact hit, no redirect: the page shows `k` with no pushed address
      exactly when `k` is the one class matching the request case-sensitively. */
  lemma KlassExactHit(st: Store, key: KlassKey, k: Klass)
    requires Distinct(st.klasses)
    ensures KlassDetail(st, key) == Render(Resolved(k, None))
            <==> OnlyMatch(st.klasses, KlassPreciseFilter(key), k)
  {
    GetCases(st.klasses, KlassPreciseFilter(key), k);
  }

  /** Fuzzy hit sets the redirect: the page shows `k` and pushes `k`'s own
      address exactly when no class matches case-sensitively and `k` is the
      one class matching case-insensitively. */
  lemma KlassFuzzyHit(st: Store, key: KlassKey, k: Klass)
    requires Distinct(st.klasses)
    ensures KlassDetail(st, key) == Render(Resolved(k, Some(KlassUrlOf(k))))
            <==> NoMatch(st.klasses, KlassPreciseFilter(key))
                 && OnlyMatch(st.klasses, KlassFuzzyFilter(key), k)
  {
    GetCases(st.klasses, KlassPreciseFilter(key), k);
    GetCases(st.klasses, KlassFuzzyFilter(key), k);
  }

  /** Double miss is a 404, and nothing else is: there is no third fallback. */
  lemma KlassDoubleMiss(st: Store, key: KlassKey)
    requires Distinct(st.klasses)
    ensures KlassDetail(st, key) == Http404
            <==> NoMatch(st.klasses, KlassPreciseFilter(key))
                 && NoMatch(st.klasses, KlassFuzzyFilter(key))
  {
    var k: Klass :| true;
    GetCases(st.klasses, KlassPreciseFilter(key), k);
    GetCases(st.klasses, KlassFuzzyFilter(key), k);
  }

  /** Only `DoesNotExist` falls back: several exact matches, or several
      fuzzy matches after an exact miss, escape as `MultipleObjectsReturned`. */
  lemma KlassAmbiguous(st: Store, key: KlassKey)
    requires Distinct(st.klasses)
    ensures KlassDetail(st, key) == Raises(MultipleObjectsReturned)
            <==> SeveralMatch(st.klasses, KlassPreciseFilter(key))
                 || (NoMatch(st.klasses, KlassPreciseFilter(key))
                     && SeveralMatch(st.klasses, KlassFuzzyFilter(key)))
  {
    var k: Klass :| true;
    GetCases(st.klasses, KlassPreciseFilter(key), k);
    GetCases(st.klasses, KlassFuzzyFilter(key), k);
  }

  // =====================================================================
  // LatestKlassDetailView: a class named by (package, class) only
  // =====================================================================

  datatype LatestKey = LatestKey(package: string, klassName: string)

  /** `LatestKlassDetailView.get_object`. The precise step always raises
      `DoesNotExist`; the fuzzy step is `Klass.objects.get_latest_for_name`,
      which belongs to the model layer and is passed in as
      `latestForName(klassName, projectName)`. Every page it renders pushes
      the found class's own address. */
  function LatestKlassDetail(key: LatestKey, latestForName: (string, string) -> Get<Klass>)
    : (r: Response<Resolved<Klass>>)
    ensures r.Render? ==>
              && latestForName(key.klassName, key.package) == One(r.context.obj)
              && r.context.pushStateUrl == Some(KlassUrlOf(r.context.obj))
    ensures r == Http404 <==> latestForName(key.klassName, key.package).Zero?
    ensures r.Raises? <==> latestForName(key.klassName, key.package).Multiple?
    ensures r.Raises? ==> r.exc == MultipleObjectsReturned
  {
    TwoStep(Zero, latestForName(key.klassName, key.package), KlassUrlOf)
  }

  // =====================================================================
  // Version resolution shared by ModuleDetailView and VersionDetailView
  // =====================================================================

  /** `version_number__iexact=version, project__name__iexact=package`. */
  function VersionFilter(key: VersionKey): ProjectVersion -> bool {
    (pv: ProjectVersion) => IExact(pv.versionNumber, key.version) && IExact(pv.project.name, key.package)
  }

  function VersionLookup(st: Store, key: VersionKey): Get<ProjectVersion> {
    Single(Filter(st.versions, VersionFilter(key)))
  }

  // =====================================================================
  // ModuleDetailView
  // =====================================================================

  datatype ModuleContext = ModuleContext(
    obj: Module,
    projectVersion: ProjectVersion,
    klassList: seq<Klass>,
    pushStateUrl: Option<Url>)

  predicate ModuleKeyIExact(a: ModuleKey, b: ModuleKey) {
    && IExact(a.package, b.package)
    && IExact(a.version, b.version)
    && IExact(a.moduleName, b.moduleName)
  }

  /** The filter of `get_precise_object`: exact name, inside the version
      `get` already resolved. */
  function ModulePreciseFilter(key: ModuleKey, pv: ProjectVersion): Module -> bool {
    (m: Module) => m.name == key.moduleName && m.projectVersion.id == pv.id
  }

  /** The filter of `get_fuzzy_object`: all three fields `__iexact`, not
      scoped to the resolved version. */
  function ModuleFuzzyFilter(key: ModuleKey): Module -> bool {
    (m: Module) => ModuleKeyIExact(ModuleKeyOf(m), key)
  }

  function ModulePrecise(st: Store, key: ModuleKey, pv: ProjectVersion): Get<Module> {
    Single(Filter(st.modules, ModulePreciseFilter(key, pv)))
  }

  function ModuleFuzzy(st: Store, key: ModuleKey): Get<Module> {
    Single(Filter(st.modules, ModuleFuzzyFilter(key)))
  }

  /** `klass_list`: `Klass.objects.filter(module=...)`. */
  function ModuleKlasses(st: Store, m: Module): (r: seq<Klass>)
    ensures forall k :: k in r <==> k in st.klasses && k.parentModule.id == m.id
  {
    Filter(st.klasses, (k: Klass) => k.parentModule.id == m.id)
  }

  function ModuleVersionKey(key: ModuleKey): VersionKey {
    VersionKey(key.package, key.version)
  }

  /** `ModuleDetailView.get`, `get_object` and `get_context_data`. The
      version is resolved case-insensitively first and a miss is a 404
      before any module is looked up; then the module goes through the
      exact-then-fuzzy lookup, its exact step scoped to that version. */
  function ModuleDetail(st: Store, key: ModuleKey): (r: Response<ModuleContext>)
    ensures VersionLookup(st, ModuleVersionKey(key)).Zero? ==> r == Http404
    ensures r.Render? ==> VersionLookup(st, ModuleVersionKey(key)) == One(r.context.projectVersion)
    ensures r.Render? ==> r.context.obj in st.modules
    ensures r.Render? && r.context.pushStateUrl.None? ==>
              && r.context.obj.name == key.moduleName
              && r.context.obj.projectVersion.id == r.context.projectVersion.id
    ensures r.Render? && r.context.pushStateUrl.Some? ==>
              && NoMatch(st.modules, ModulePreciseFilter(key, r.context.projectVersion))
              && ModuleKeyIExact(ModuleKeyOf(r.context.obj), key)
              && r.context.pushStateUrl == Some(ModuleUrlOf(r.context.obj))
    ensures r.Render? ==>
              forall k :: k in r.context.klassList <==> k in st.klasses && k.parentModule.id == r.context.obj.id
    ensures r.Raises? ==> r.exc == MultipleObjectsReturned
  {
    match VersionLookup(st, ModuleVersionKey(key))
    case Zero => Http404
    case Multiple => Raises(MultipleObjectsReturned)
    case One(pv) =>
      GetZeroIffNoMatch(st.modules, ModulePreciseFilter(key, pv));
      var found := TwoStep(ModulePrecise(st, key, pv), ModuleFuzzy(st, key), ModuleUrlOf);
      match found
      case Render(Resolved(m, push)) => Render(ModuleContext(m, pv, ModuleKlasses(st, m), push))
      case Http404 => Http404
      case Raises(e) => Raises(e)
  }

  /** Only the module name decides the redirect: when the version is the one
      `pv` matching case-insensitively, the page shows `m` with no pushed
      address exactly when `m` is the one module of `pv` with exactly the
      requested name, however the package and version were cased in the
      request. */
  lemma ModuleExactInResolvedVersion(st: Store, key: ModuleKey, pv: ProjectVersion, m: Module)
    requires Distinct(st.versions) && Distinct(st.modules)
    requires OnlyMatch(st.versions, VersionFilter(ModuleVersionKey(key)), pv)
    ensures ModuleDetail(st, key) == Render(ModuleContext(m, pv, ModuleKlasses(st, m), None))
            <==> OnlyMatch(st.modules, ModulePreciseFilter(key, pv), m)
  {
    GetCases(st.versions, VersionFilter(ModuleVersionKey(key)), pv);
    GetCases(st.modules, ModulePreciseFilter(key, pv), m);
  }

  /** Fuzzy hit, redirect: the page shows `m` in version `pv` and pushes
      `m`'s own address exactly when no module of `pv` has exactly the
      requested name and `m` is the one module matching the request
      case-insensitively on package, version and name. */
  lemma ModuleFuzzyHit(st: Store, key: ModuleKey, pv: ProjectVersion, m: Module)
    requires Distinct(st.versions) && Distinct(st.modules)
    requires OnlyMatch(st.versions, VersionFilter(ModuleVersionKey(key)), pv)
    ensures ModuleDetail(st, key) == Render(ModuleContext(m, pv, ModuleKlasses(st, m), Some(ModuleUrlOf(m))))
            <==> NoMatch(st.modules, ModulePreciseFilter(key, pv)) && OnlyMatch(st.modules, ModuleFuzzyFilter(key), m)
  {
    GetCases(st.versions, VersionFilter(ModuleVersionKey(key)), pv);
    GetCases(st.modules, ModulePreciseFilter(key, pv), m);
    GetCases(st.modules, ModuleFuzzyFilter(key), m);
  }

  /** Several modules escape: once the version is resolved, the page
      raises `MultipleObjectsReturned` exactly when several modules of that
      version have the requested name, or none has it and several match
      the request case-insensitively. Several exact matches never fall back
      to the fuzzy lookup. */
  lemma ModuleAmbiguous(st: Store, key: ModuleKey, pv: ProjectVersion)
    requires Distinct(st.versions) && Distinct(st.modules)
    requires OnlyMatch(st.versions, VersionFilter(ModuleVersionKey(key)), pv)
    ensures ModuleDetail(st, key) == Raises(MultipleObjectsReturned)
            <==> || SeveralMatch(st.modules, ModulePreciseFilter(key, pv))
                 || (NoMatch(st.modules, ModulePreciseFilter(key, pv)) && SeveralMatch(st.modules, ModuleFuzzyFilter(key)))
  {
    var anyModule: Module :| true;
    GetCases(st.versions, VersionFilter(ModuleVersionKey(key)), pv);
    GetCases(st.modules, ModulePreciseFilter(key, pv), anyModule);
    GetCases(st.modules, ModuleFuzzyFilter(key), anyModule);
  }

  /** A 404 from the module page means the version missed, or the version
      was found and the module missed both lookups. */
  lemma ModuleNotFound(st: Store, key: ModuleKey)
    requires Distinct(st.versions) && Distinct(st.modules)
    ensures ModuleDetail(st, key) == Http404
            <==> NoMatch(st.versions, VersionFilter(ModuleVersionKey(key)))
                 || exists pv :: OnlyMatch(st.versions, VersionFilter(ModuleVersionKey(key)), pv)
                                 && NoMatch(st.modules, ModulePreciseFilter(key, pv))
                                 && NoMatch(st.modules, ModuleFuzzyFilter(key))
  {
    var vk := ModuleVersionKey(key);
    var anyVersion: ProjectVersion :| true;
    GetCases(st.versions, VersionFilter(vk), anyVersion);
    match VersionLookup(st, vk)
    case Zero =>
    case Multiple =>
      forall pv | OnlyMatch(st.versions, VersionFilter(vk), pv)
        ensures false
      {
        GetCases(st.versions, VersionFilter(vk), pv);
      }
    case One(pv) =>
      var anyModule: Module :| true;
      GetCases(st.modules, ModulePreciseFilter(key, pv), anyModule);
      GetCases(st.modules, ModuleFuzzyFilter(key), anyModule);
      forall pv' | OnlyMatch(st.versions, VersionFilter(vk), pv')
        ensures pv' == pv
      {
        GetCases(st.versions, VersionFilter(vk), pv');
      }
  }

  /** In a well-formed store the module shown always belongs to the version
      the page resolved, whichever lookup found it. */
  lemma ModuleInResolvedVersion(st: Store, key: ModuleKey)
    requires WellFormed(st)
    ensures ModuleDetail(st, key).Render? ==>
              ModuleDetail(st, key).context.obj.projectVersion == ModuleDetail(st, key).context.projectVersion
  {
    var r := ModuleDetail(st, key);
    if r.Render? {
      var m, pv := r.context.obj, r.context.projectVersion;
      var vk := ModuleVersionKey(key);
      WellFormedDistinct(st);
      GetCases(st.versions, VersionFilter(vk), pv);
      assert m.projectVersion in st.versions;
      if r.context.pushStateUrl.None? {
        IdDetermines(st.versions, VersionId, m.projectVersion, pv);
      } else {
        assert VersionFilter(vk)(m.projectVersion);
      }
    }
  }

  // =====================================================================
  // VersionDetailView and HomeView
  // =====================================================================

  datatype VersionContext = VersionContext(objectList: seq<Klass>, projectVersion: ProjectVersion)

  /** `object_list`: `Klass.objects.filter(module__project_version=...)`. */
  function VersionKlasses(st: Store, pv: ProjectVersion): (r: seq<Klass>)
    ensures forall k :: k in r <==> k in st.klasses && k.parentModule.projectVersion.id == pv.id
  {
    Filter(st.klasses, (k: Klass) => k.parentModule.projectVersion.id == pv.id)
  }

  /** `VersionDetailView.get` and `get_context_data` once
      `get_project_version` has run: `DoesNotExist` is a 404, several
      versions escape, one version lists its classes. */
  function VersionPage(st: Store, found: Get<ProjectVersion>): (r: Response<VersionContext>)
    ensures r == Http404 <==> found.Zero?
    ensures r.Raises? <==> found.Multiple?
    ensures r.Raises? ==> r.exc == MultipleObjectsReturned
    ensures r.Render? ==> found == One(r.context.projectVersion)
    ensures r.Render? ==>
              forall k :: k in r.context.objectList
                <==> k in st.klasses && k.parentModule.projectVersion.id == r.context.projectVersion.id
  {
    match found
    case Zero => Http404
    case Multiple => Raises(MultipleObjectsReturned)
    case One(pv) => Render(VersionContext(VersionKlasses(st, pv), pv))
  }

  /** The version page: the version is resolved case-insensitively on
      package and version number, and the page lists the classes of every
      module of that version. */
  function VersionDetail(st: Store, key: VersionKey): (r: Response<VersionContext>)
    ensures r == Http404 <==> NoMatch(st.versions, VersionFilter(key))
    ensures r.Render? ==>
              && r.context.projectVersion in st.versions
              && IExact(r.context.projectVersion.versionNumber, key.version)
              && IExact(r.context.projectVersion.project.name, key.package)
    ensures r.Render? ==>
              forall k :: k in r.context.objectList
                <==> k in st.klasses && k.parentModule.projectVersion.id == r.context.projectVersion.id
    ensures r.Raises? ==> r.exc == MultipleObjectsReturned
  {
    GetZeroIffNoMatch(st.versions, VersionFilter(key));
    VersionPage(st, VersionLookup(st, key))
  }

  /** The version page shows `pv` exactly when `pv` is the one stored
      version matching package and version number case-insensitively, and
      raises exactly when several versions match. */
  lemma VersionDetailCases(st: Store, key: VersionKey, pv: ProjectVersion)
    requires Distinct(st.versions)
    ensures VersionDetail(st, key).Render? && VersionDetail(st, key).context.projectVersion == pv
            <==> OnlyMatch(st.versions, VersionFilter(key), pv)
    ensures VersionDetail(st, key).Raises? <==> SeveralMatch(st.versions, VersionFilter(key))
  {
    GetCases(st.versions, VersionFilter(key), pv);
  }

  /** The home page: the version page of `get_latest("Django")`, passed in
      as `latestDjango` because the version selector belongs to the model
      layer. */
  function HomeDetail(st: Store, latestDjango: Get<ProjectVersion>): (r: Response<VersionContext>)
    ensures r == Http404 <==> latestDjango.Zero?
    ensures r.Raises? <==> latestDjango.Multiple?
    ensures r.Raises? ==> r.exc == MultipleObjectsReturned
    ensures latestDjango.One? ==>
              && r.Render?
              && r.context.projectVersion == latestDjango.value
              && forall k :: k in r.context.objectList
                   <==> k in st.klasses && k.parentModule.projectVersion.id == latestDjango.value.id
  {
    VersionPage(st, latestDjango)
  }

  /** The two listings agree: in a well-formed store a version page lists
      exactly the classes that the module pages of that version's modules
      list. */
  lemma VersionListsItsModules(st: Store, pv: ProjectVersion, k: Klass)
    requires WellFormed(st)
    ensures k in VersionKlasses(st, pv)
            <==> exists m :: m in st.modules && m.projectVersion.id == pv.id && k in ModuleKlasses(st, m)
  {
    if k in VersionKlasses(st, pv) {
      var m := k.parentModule;
      assert m in st.modules && k in ModuleKlasses(st, m);
    }
    if exists m :: m in st.modules && m.projectVersion.id == pv.id && k in ModuleKlasses(st, m) {
      var m :| m in st.modules && m.projectVersion.id == pv.id && k in ModuleKlasses(st, m);
      assert k.parentModule in st.modules;
      IdDetermines(st.modules, ModuleId, k.parentModule, m);
    }
  }
}
