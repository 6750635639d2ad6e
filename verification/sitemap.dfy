/** The sitemap: the home page, then every class in the four-key order,
    each weighted by whether it belongs to the latest reference version. */
module Sitemap {
  import opened Store
  import opened Query
  import opened Resolver
  import opened Ordering

  /** Priorities in tenths: 1.0, 0.9 and 0.5. */
  const HomePriority: nat := 10
  const LatestPriority: nat := 9
  const OlderPriority: nat := 5

  datatype Entry = Entry(location: Url, priority: nat)

  /** 0.9 for a class of the latest version, 0.5 for any other. */
  function KlassPriority(k: Klass, latest: ProjectVersion): nat {
    if k.parentModule.projectVersion.id == latest.id then LatestPriority else OlderPriority
  }

  function KlassEntry(k: Klass, latest: ProjectVersion): Entry {
    Entry(KlassUrlOf(k), KlassPriority(k, latest))
  }

  /** One entry per class, in the given order. */
  function KlassEntries(ks: seq<Klass>, latest: ProjectVersion): (r: seq<Entry>)
    ensures |r| == |ks|
    ensures forall i :: 0 <= i < |ks| ==> r[i] == KlassEntry(ks[i], latest)
  {
    seq(|ks|, i requires 0 <= i < |ks| => KlassEntry(ks[i], latest))
  }

  /** `Sitemap.get_context_data`: `latestDjango` is what
      `get_latest("Django")` returned; when it raised, nothing catches it.
      Otherwise the url set has the home entry first at 1.0 and then one
      entry per class in sitemap order, each at its own address. */
  function BuildSitemap(st: Store, latestDjango: Get<ProjectVersion>): (r: Response<seq<Entry>>)
    ensures latestDjango.Zero? ==> r == Raises(DoesNotExist)
    ensures latestDjango.Multiple? ==> r == Raises(MultipleObjectsReturned)
    ensures latestDjango.One? ==>
              && r.Render?
              && |r.context| == 1 + |st.klasses|
              && r.context[0] == Entry(HomeUrl, HomePriority)
              && forall i :: 1 <= i < |r.context| ==>
                   r.context[i] == KlassEntry(SitemapOrder(st.klasses)[i - 1], latestDjango.value)
  {
    match latestDjango
    case Zero => Raises(DoesNotExist)
    case Multiple => Raises(MultipleObjectsReturned)
    case One(latest) =>
      var ks := SitemapOrder(st.klasses);
      var tail := KlassEntries(ks, latest);
      var urls := [Entry(HomeUrl, HomePriority)] + tail;
      assert forall i :: 1 <= i < |urls| ==> urls[i] == tail[i - 1];
      Render(urls)
  }

  /** A class entry is at 0.9 exactly when its class belongs to the latest
      version, and at 0.5 otherwise. */
  lemma SitemapPriorities(st: Store, latest: ProjectVersion, i: nat)
    requires 1 <= i < 1 + |st.klasses|
    ensures BuildSitemap(st, One(latest)).context[i].priority == LatestPriority
            <==> SitemapOrder(st.klasses)[i - 1].parentModule.projectVersion.id == latest.id
    ensures BuildSitemap(st, One(latest)).context[i].priority != LatestPriority
            ==> BuildSitemap(st, One(latest)).context[i].priority == OlderPriority
  {
  }

  /** Class entries follow the four-key order: package name ascending,
      sortable version number descending, module name ascending, class name
      ascending. */
  lemma SitemapEntriesOrdered(st: Store, latest: ProjectVersion, i: nat, j: nat)
    requires 1 <= i < j < 1 + |st.klasses|
    ensures BuildSitemap(st, One(latest)).context[i].location == KlassUrlOf(SitemapOrder(st.klasses)[i - 1])
    ensures BuildSitemap(st, One(latest)).context[j].location == KlassUrlOf(SitemapOrder(st.klasses)[j - 1])
    ensures SitemapLeq(SitemapOrder(st.klasses)[i - 1], SitemapOrder(st.klasses)[j - 1])
  {
  }

  /** The entries after the home entry, as `BuildSitemap` lays them out. */
  lemma SitemapTail(st: Store, latest: ProjectVersion)
    ensures BuildSitemap(st, One(latest)).context[1..] == KlassEntries(SitemapOrder(st.klasses), latest)
  {
    var tail := KlassEntries(SitemapOrder(st.klasses), latest);
    assert ([Entry(HomeUrl, HomePriority)] + tail)[1..] == tail;
  }

  /** Every class of the store has its entry, at its own address and with
      its own priority, somewhere after the home entry; and every entry after
      the home entry is such an entry for a class of the store. */
  lemma SitemapCoversStore(st: Store, latest: ProjectVersion)
    ensures forall k :: k in st.klasses ==> KlassEntry(k, latest) in BuildSitemap(st, One(latest)).context[1..]
    ensures forall e :: e in BuildSitemap(st, One(latest)).context[1..] ==>
              exists k :: k in st.klasses && e == KlassEntry(k, latest)
  {
    var ks := SitemapOrder(st.klasses);
    var entries := KlassEntries(ks, latest);
    SitemapTail(st, latest);
    forall k | k in st.klasses
      ensures KlassEntry(k, latest) in entries
    {
      assert k in multiset(ks);
      var i :| 0 <= i < |ks| && ks[i] == k;
      assert entries[i] == KlassEntry(k, latest);
    }
    forall e | e in entries
      ensures exists k :: k in st.klasses && e == KlassEntry(k, latest)
    {
      var i :| 0 <= i < |entries| && entries[i] == e;
      assert ks[i] in multiset(st.klasses);
    }
  }
}
