/** Concrete stores that show the views' behaviour on small inputs. */
module Scenarios {
  import opened Store
  import opened Query
  import opened Resolver
  import opened Views
  import opened Ordering
  import opened Sitemap

  const django := Project(1, "Django")
  const v10 := ProjectVersion(1, django, "1.0", "1.0")
  const v20 := ProjectVersion(2, django, "2.0", "2.0")
  const m10 := Module(1, v10, "m")
  const m20 := Module(2, v20, "m")
  const c10 := Klass(1, m10, "C")
  const c20 := Klass(2, m20, "C")

  /** Django 1.0 and 2.0, each with one module `m` holding one class `C`. */
  const twoVersions := Store([v10, v20], [m10, m20], [c10, c20])

  /** Version 2.0 sorts before 1.0: the version column is descending. */
  lemma TwoVersionOrder()
    ensures SitemapOrder(twoVersions.klasses) == [c20, c10]
  {
    assert !StrLeq("2.0", "1.0");
    assert SitemapOrder([c20]) == [c20];
    assert !SitemapLeq(c10, c20);
    assert Insert(c10, [c20]) == [c20, c10];
  }

  /** The sitemap of `twoVersions` with 2.0 as the latest version: home at
      1.0, then the 2.0 class at 0.9, then the 1.0 class at 0.5. */
  lemma TwoVersionSitemap()
    ensures BuildSitemap(twoVersions, One(v20))
            == Render([Entry(HomeUrl, 10),
                       Entry(KlassUrl(KlassKey("Django", "2.0", "m", "C")), 9),
                       Entry(KlassUrl(KlassKey("Django", "1.0", "m", "C")), 5)])
  {
    TwoVersionOrder();
    var urls := BuildSitemap(twoVersions, One(v20)).context;
    assert |urls| == 3;
    assert urls[1] == Entry(KlassUrl(KlassKey("Django", "2.0", "m", "C")), 9);
    assert urls[2] == Entry(KlassUrl(KlassKey("Django", "1.0", "m", "C")), 5);
    assert urls[0] == Entry(HomeUrl, 10);
    assert urls == [urls[0], urls[1], urls[2]];
  }

  /** The module page for `django/1.0/m` finds module `m` of version 1.0
      by its exact name inside the case-insensitively resolved version, so
      no address is pushed even though the package was requested as
      `django`. */
  lemma VersionCaseDriftPushesNothing()
    ensures ModuleDetail(twoVersions, ModuleKey("django", "1.0", "m"))
            == Render(ModuleContext(m10, v10, ModuleKlasses(twoVersions, m10), None))
  {
    var key := ModuleKey("django", "1.0", "m");
    assert Lower("django") == Lower("Django") == "django";
    assert Lower("1.0")[0] == '1' && Lower("2.0")[0] == '2';
    assert OnlyMatch(twoVersions.versions, VersionFilter(ModuleVersionKey(key)), v10);
    assert OnlyMatch(twoVersions.modules, ModulePreciseFilter(key, v10), m10);
    ModuleExactInResolvedVersion(twoVersions, key, v10, m10);
  }

  const fooUpper := Klass(3, m20, "FOO")
  const fooTitle := Klass(4, m20, "Foo")

  /** Two classes whose names differ only in case. */
  const caseTwins := Store([v20], [m20], [fooUpper, fooTitle])

  /** Asking for `foo` misses exactly and matches both classes
      case-insensitively: the fuzzy `.get()` raises and nothing catches it. */
  lemma FuzzyAmbiguityEscapes()
    ensures KlassDetail(caseTwins, KlassKey("Django", "2.0", "m", "foo"))
            == Raises(MultipleObjectsReturned)
  {
    var key := KlassKey("Django", "2.0", "m", "foo");
    assert Lower("FOO") == Lower("Foo") == Lower("foo") == "foo";
    assert "FOO" != "foo" && "Foo" != "foo";
    assert NoMatch(caseTwins.klasses, KlassPreciseFilter(key));
    assert fooUpper != fooTitle;
    assert fooUpper in caseTwins.klasses && fooTitle in caseTwins.klasses;
    assert KlassFuzzyFilter(key)(fooUpper) && KlassFuzzyFilter(key)(fooTitle);
    assert SeveralMatch(caseTwins.klasses, KlassFuzzyFilter(key));
    KlassAmbiguous(caseTwins, key);
  }
}
