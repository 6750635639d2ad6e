/** The read-only record store behind the class-based-view browser:
    packages (projects), their versions, the modules of a version and the
    classes of a module. Every record carries its primary key `id` and,
    as a `select_related` query would deliver it, its whole parent chain.
    Django compares model instances and foreign keys by primary key, so
    the views below compare records by `id`. */
module Store {

  datatype Option<T> = None | Some(value: T)

  datatype Project = Project(id: nat, name: string)

  /** `sortableVersionNumber` is the derived column the store orders
      versions by; how it is derived from `versionNumber` is not part of
      this model. */
  datatype ProjectVersion = ProjectVersion(
    id: nat,
    project: Project,
    versionNumber: string,
    sortableVersionNumber: string)

  datatype Module = Module(id: nat, projectVersion: ProjectVersion, name: string)

  datatype Klass = Klass(id: nat, parentModule: Module, name: string)

  /** The three tables the views query, each in the store's default order. */
  datatype Store = Store(versions: seq<ProjectVersion>, modules: seq<Module>, klasses: seq<Klass>)

  /** The identifying tuples a request carries in its URL keyword arguments. */
  datatype VersionKey = VersionKey(package: string, version: string)
  datatype ModuleKey = ModuleKey(package: string, version: string, moduleName: string)
  datatype KlassKey = KlassKey(package: string, version: string, moduleName: string, klassName: string)

  /** A canonical page address, described by the inputs URL routing builds
      it from; the routing itself is outside the model. */
  datatype Url = HomeUrl | ModuleUrl(moduleKey: ModuleKey) | KlassUrl(klassKey: KlassKey)

  /** The stored identifying fields of a module. */
  function ModuleKeyOf(m: Module): ModuleKey {
    ModuleKey(m.projectVersion.project.name, m.projectVersion.versionNumber, m.name)
  }

  /** The stored identifying fields of a class. */
  function KlassKeyOf(k: Klass): KlassKey {
    var m := k.parentModule;
    KlassKey(m.projectVersion.project.name, m.projectVersion.versionNumber, m.name, k.name)
  }

  /** `Module.get_absolute_url`: the address built from the module's own fields. */
  function ModuleUrlOf(m: Module): Url {
    ModuleUrl(ModuleKeyOf(m))
  }

  /** `Klass.get_absolute_url`: the address built from the class's own fields. */
  function KlassUrlOf(k: Klass): Url {
    KlassUrl(KlassKeyOf(k))
  }

  // ---------------------------------------------------------------------
  // Case-insensitive comparison (`__iexact`), as ASCII lower-casing
  // ---------------------------------------------------------------------

  /** The lower-case letter of an upper-case ASCII letter; every other
      character is its own lower case. */
  function LowerChar(c: char): (d: char)
    ensures !('A' <= d <= 'Z')
    ensures d == c <==> !('A' <= c <= 'Z')
  {
    if 'A' <= c <= 'Z' then (c as int + 32) as char else c
  }

  function Lower(s: string): (r: string)
    ensures |r| == |s|
    ensures forall i :: 0 <= i < |r| ==> !('A' <= r[i] <= 'Z')
  {
    seq(|s|, i requires 0 <= i < |s| => LowerChar(s[i]))
  }

  /** Lower-casing twice is lower-casing once. */
  lemma LowerIdempotent(s: string)
    ensures Lower(Lower(s)) == Lower(s)
  {
  }

  /** `a__iexact=b`. */
  predicate IExact(a: string, b: string) {
    Lower(a) == Lower(b)
  }

  /** `__iexact` matches a string with any re-casing of it, including its
      own lower case, and only strings of the same length. */
  lemma IExactLower(a: string, b: string)
    ensures IExact(a, Lower(a))
    ensures IExact(a, b) ==> |a| == |b|
  {
  }

  // ---------------------------------------------------------------------
  // Store integrity
  // ---------------------------------------------------------------------

  /** No row occurs twice in a table. */
  ghost predicate Distinct<T>(s: seq<T>) {
    forall i, j :: 0 <= i < j < |s| ==> s[i] != s[j]
  }

  /** No two rows of a table share the key `id` picks out of them. */
  ghost predicate IdsUnique<T>(s: seq<T>, id: T -> nat) {
    forall i, j :: 0 <= i < j < |s| ==> id(s[i]) != id(s[j])
  }

  function VersionId(v: ProjectVersion): nat { v.id }
  function ModuleId(m: Module): nat { m.id }
  function KlassId(k: Klass): nat { k.id }

  /** Primary keys are unique in every table and every foreign key points
      at a row of its parent table (the strict Package > Version > Module >
      Class tree). */
  ghost predicate WellFormed(st: Store) {
    && IdsUnique(st.versions, VersionId)
    && IdsUnique(st.modules, ModuleId)
    && IdsUnique(st.klasses, KlassId)
    && (forall m :: m in st.modules ==> m.projectVersion in st.versions)
    && (forall k :: k in st.klasses ==> k.parentModule in st.modules)
  }

  /** Where keys are unique, a key picks out one row. */
  lemma IdDetermines<T>(s: seq<T>, id: T -> nat, a: T, b: T)
    requires IdsUnique(s, id)
    requires a in s && b in s && id(a) == id(b)
    ensures a == b
  {
    var i :| 0 <= i < |s| && s[i] == a;
    var j :| 0 <= j < |s| && s[j] == b;
  }

  /** Unique primary keys mean no table holds the same row twice. */
  lemma WellFormedDistinct(st: Store)
    requires WellFormed(st)
    ensures Distinct(st.versions) && Distinct(st.modules) && Distinct(st.klasses)
  {
  }
}
