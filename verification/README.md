# Class-based-view browser: entity resolution and sitemap

This project models the decision logic under the views of a reference
browser for Django's class-based views (`cbv/views.py`). It covers the
parts that decide what a page shows, not how the page is rendered.

A read-only store holds Package → Version → Module → Class records. A
detail page resolves its record in two steps:

1. An exact, case-sensitive query on every identifying field.
2. If that raises `DoesNotExist`, a case-insensitive (`__iexact`) query.

If the second step finds the record, the page sets a `push_state_url`.
This is a client-side address correction built from the record's own
stored fields. If both steps miss, the page is a 404.

Other parts of the model:

- The latest-class page skips the exact step.
- The module page first resolves its version case-insensitively.
- The version and home pages list the classes of one version.
- The sitemap lists the home page and then every class in a fixed
  four-column order. Each class gets a priority that depends on whether it
  belongs to the latest Django version.

Files:

- `store.dfy` (`Store`): the records, each with its primary key `id` and
  its parent chain. Also the request key tuples, canonical addresses,
  `__iexact` as ASCII lower-casing, and store integrity.
- `query.dfy` (`Query`): `filter(...)` and `.get()` with its three outcomes.
  These are `One(row)`, `Zero` (`DoesNotExist`) and `Multiple`
  (`MultipleObjectsReturned`).
- `resolver.dfy` (`Resolver`): the shared exact-then-fuzzy `get_object`.
  Also a view's terminal states: rendered with or without a pushed
  address, `Http404`, or an uncaught exception.
- `views.dfy` (`Views`): `KlassDetailView`, `LatestKlassDetailView`,
  `ModuleDetailView`, `VersionDetailView` and `HomeView`.
- `ordering.dfy` (`Ordering`): the sitemap's `order_by`, and a sort proved
  to produce it.
- `sitemap.dfy` (`Sitemap`): `Sitemap.get_context_data`.
- `scenarios.dfy` (`Scenarios`): small concrete stores.

Django compares model instances and foreign keys by primary key. The model
does the same and compares records by `id`. The `push_state_url` that the
source keeps as a mutable view attribute is returned here as part of an
immutable result, `Resolved(obj, pushStateUrl)`.

Some behaviours of the code are easy to miss:

- The module and version pages resolve the version with one
  case-insensitive `.get()`. There is no exact-then-fuzzy step for the
  version (`cbv/views.py:118-129`, `168-177`).
- On the module page, a version that only matches case-insensitively does
  not set `push_state_url`. The exact module step is scoped to the resolved
  version by primary key. So a request that differs from the stored record
  only in package or version casing renders with no pushed address
  (`Views.ModuleExactInResolvedVersion`,
  `Scenarios.VersionCaseDriftPushesNothing`).
- A fuzzy query that matches several records does not pick one. `.get()`
  raises `MultipleObjectsReturned`, and nothing catches it
  (`Views.KlassAmbiguous`, `Scenarios.FuzzyAmbiguityEscapes`).
- The sitemap does not catch a failure of `get_latest("Django")`.

## Model

| member | source | states |
|---|---|---|
| `Store.IExactLower` | cbv/views.py:53-63 | an `__iexact` condition matches a string with its own lower case, and only strings of the same length |
| `Store.LowerIdempotent` | cbv/views.py:53-63 | lower-casing an already lower-cased string changes nothing, so comparing lower cases is a stable test |
| `Query.Filter` | cbv/views.py:42-48 | a filtered query holds exactly the table rows that satisfy every condition, never more rows than the table, and repeats no row if the table repeats none |
| `Query.Single` | cbv/views.py:50 | `.get()` on an evaluated query raises `DoesNotExist` exactly when the query is empty, returns a row exactly when the query holds one row, and the row it returns is one the query holds |
| `Query.GetCases` | cbv/views.py:42-51 | on a table without repeated rows, `.get()` returns a row exactly when it is the only matching row, raises `DoesNotExist` exactly when no row matches, and raises `MultipleObjectsReturned` exactly when two different rows match |
| `Query.GetZeroIffNoMatch` | cbv/views.py:25-27 | `.get()` raises `DoesNotExist` exactly when no row satisfies the filter, on any table |
| `Resolver.TwoStep` | cbv/views.py:24-34 | the shared `get_object` state machine: no pushed address exactly when the precise lookup found one object; a pushed address only after a precise `DoesNotExist` and a fuzzy single hit, and then it is the found object's own address; a 404 exactly when both lookups raise `DoesNotExist`; any escaping exception is `MultipleObjectsReturned` |
| `Views.KlassDetail` | cbv/views.py:24-63 | a class page shows a stored class; with no pushed address its four stored fields equal the request; with a pushed address they equal the request case-insensitively but not exactly, and the address is built from the stored fields, not from the request |
| `Views.KlassExactHit` | cbv/views.py:24-51 | the class page shows `k` with no pushed address if and only if `k` is the one class that matches the request case-sensitively on package, version, module and name |
| `Views.KlassFuzzyHit` | cbv/views.py:24-63 | the class page shows `k` and pushes `k`'s own address if and only if no class matches exactly and `k` is the one class that matches case-insensitively |
| `Views.KlassDoubleMiss` | cbv/views.py:25-31 | the class page is a 404 if and only if both the exact and the case-insensitive query match nothing; there is no third fallback |
| `Views.KlassAmbiguous` | cbv/views.py:25-31 | the class page raises `MultipleObjectsReturned` if and only if several classes match exactly, or none matches exactly and several match case-insensitively; several exact matches never fall back |
| `Views.LatestKlassDetail` | cbv/views.py:71-98 | the latest-class page never takes the exact path: every rendered page pushes the found class's own address, the class is the one `get_latest_for_name(klass, package)` returned, a miss from it is a 404, and several matches from it escape as `MultipleObjectsReturned` |
| `Views.ModuleDetail` | cbv/views.py:106-155 | a version miss is a 404 before any module lookup; a rendered page carries the case-insensitively resolved version; without a pushed address the module has exactly the requested name and belongs to that version by key; with one, no module of that version has exactly the requested name, the module matches case-insensitively and the address is its own; `klass_list` holds exactly the classes of the shown module |
| `Views.ModuleExactInResolvedVersion` | cbv/views.py:118-135 | when `pv` is the one version matching case-insensitively, the page shows `m` and `pv` with no pushed address if and only if `m` is the one module of `pv` with exactly the requested name, whatever the request's package or version casing |
| `Views.ModuleFuzzyHit` | cbv/views.py:106-142 | once `pv` is the one version matching case-insensitively, the page shows `m` in `pv` and pushes `m`'s own address if and only if no module of `pv` has exactly the requested name and `m` is the one module matching package, version and name case-insensitively |
| `Views.ModuleAmbiguous` | cbv/views.py:106-142 | once `pv` is the one version matching case-insensitively, the page raises `MultipleObjectsReturned` if and only if several modules of `pv` have exactly the requested name, or none has it and several modules match case-insensitively; several exact matches never fall back |
| `Views.ModuleNotFound` | cbv/views.py:106-142 | the module page is a 404 if and only if no version matches, or one version matches and the module misses both the scoped exact lookup and the fuzzy lookup |
| `Views.ModuleInResolvedVersion` | cbv/views.py:118-142 | in a well-formed store, the module shown always belongs to the version the page resolved, whichever lookup found it |
| `Views.ModuleKlasses` | cbv/views.py:148-150 | a module page's class list holds exactly the stored classes whose module is the shown module |
| `Views.VersionKlasses` | cbv/views.py:181-183 | a version page's class list holds exactly the stored classes whose module belongs to the resolved version |
| `Views.VersionPage` | cbv/views.py:161-185 | a version `DoesNotExist` is a 404 and nothing else is; several versions escape as `MultipleObjectsReturned`; a found version is shown with exactly its classes |
| `Views.VersionDetail` | cbv/views.py:158-185 | the version page is a 404 exactly when no stored version matches package and version number case-insensitively; a rendered page shows a stored version that matches them and lists exactly its classes |
| `Views.VersionDetailCases` | cbv/views.py:158-185 | on a table without repeated versions, the version page shows `pv` if and only if `pv` is the one version matching package and version number case-insensitively, and raises `MultipleObjectsReturned` if and only if several versions match |
| `Views.HomeDetail` | cbv/views.py:188-192 | the home page is a 404 exactly when `get_latest("Django")` raises `DoesNotExist`, raises `MultipleObjectsReturned` exactly when it does, and when it returns a version shows that version and exactly its classes |
| `Views.VersionListsItsModules` | cbv/views.py:144-185 | in a well-formed store, a class is on a version page exactly when it is on the module page of some module of that version |
| `Ordering.SitemapOrder` | cbv/views.py:201-208 | the sitemap's class order is a permutation of all stored classes, sorted by package name ascending, sortable version number descending, module name ascending and class name ascending |
| `Ordering.SortedUnique` | cbv/views.py:203-208 | when no two classes tie on the four columns, any two sorted arrangements of the same classes are equal, so the store's `order_by` gives the same sequence as `SitemapOrder` |
| `Sitemap.BuildSitemap` | cbv/views.py:199-214 | a failing `get_latest("Django")` escapes as the exception it raised; otherwise the url set has one entry more than there are classes, the home entry first at 1.0, then one entry per class in sitemap order, at that class's own address |
| `Sitemap.SitemapPriorities` | cbv/views.py:200-213 | a class entry has priority 0.9 exactly when its class's version is the latest Django version, and 0.5 otherwise |
| `Sitemap.SitemapEntriesOrdered` | cbv/views.py:203-213 | a class entry comes before a later class entry only if its class sorts no later in the four-column order |
| `Sitemap.SitemapCoversStore` | cbv/views.py:201-213 | every stored class has its own entry, with its own address and priority, after the home entry, and every entry after the home entry belongs to a stored class |
| `Scenarios.TwoVersionSitemap` | cbv/views.py:199-214 | for Django 1.0 and 2.0, each with one module `m` holding one class `C`, the sitemap is home at 1.0, then the 2.0 class at 0.9, then the 1.0 class at 0.5 |
| `Scenarios.VersionCaseDriftPushesNothing` | cbv/views.py:118-135 | a module request for `django/1.0/m` against a store that spells the package `Django` renders module `m` of 1.0 with no pushed address |
| `Scenarios.FuzzyAmbiguityEscapes` | cbv/views.py:53-63 | a request for class `foo` against classes `FOO` and `Foo` in the same module raises `MultipleObjectsReturned` |

## Left out

- `RedirectToLatestVersionView` (`cbv/views.py:10-16`) is left out. It only reverses a URL name with the latest version number, which is Django routing.
- `ProjectVersion.objects.get_latest` and `Klass.objects.get_latest_for_name` are defined in `cbv/models.py`, which is not part of this model. The views receive them as parameters: `latestDjango` and `latestForName`, each a `.get()`-shaped outcome.
- How `sortable_version_number` is derived from `version_number` is not part of this model. It is treated as a stored text column. The model therefore proves nothing about which version is the latest.
- `get_absolute_url` and `reverse` are routing. A canonical address is modelled as the tuple of stored fields it is built from (`Url`), not as a path string.
- Template rendering, `content_type`, `select_related`, request and response handling and the `super().get*` chains are left out. They do not affect which record a page shows.
- `__iexact` is modelled as equality after ASCII lower-casing. Database collation and Unicode case folding are not modelled. Text ordering is modelled as lexicographic order by character code.
- Priorities are the tenths 10, 9 and 5 instead of the floats 1.0, 0.9 and 0.5.
- Views.ModuleKlasses: states which classes the list holds, not that it keeps the store's default order (`Filter` keeps it, but no contract says so).
- Views.VersionKlasses: states which classes the list holds, not that it keeps the store's default order, for the same reason.
- Ordering.SitemapOrder: when classes tie on all four columns, the database may return them in any order. The model fixes one order. `Ordering.SortedUnique` shows the order is unique when there are no ties.
- Repeating a lookup against an unchanged store gives the same result. This holds because every member is a pure function, so there is no lemma for it.
