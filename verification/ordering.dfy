/** The order the sitemap lists classes in: package name ascending,
    sortable version number descending, module name ascending, class name
    ascending; and a sort that produces it. */
module Ordering {
  import opened Store

  /** Lexicographic order of strings by character code: the order the
      store sorts a text column in. */
  predicate StrLeq(a: string, b: string)
    decreases |a|
  {
    |a| == 0 || (|b| > 0 && (a[0] < b[0] || (a[0] == b[0] && StrLeq(a[1..], b[1..]))))
  }

  lemma {:induction false} StrLeqTotal(a: string, b: string)
    ensures StrLeq(a, b) || StrLeq(b, a)
    decreases |a|
  {
    if |a| > 0 && |b| > 0 && a[0] == b[0] {
      StrLeqTotal(a[1..], b[1..]);
    }
  }

  lemma {:induction false} StrLeqAntisymmetric(a: string, b: string)
    requires StrLeq(a, b) && StrLeq(b, a)
    ensures a == b
    decreases |a|
  {
    if |a| > 0 {
      StrLeqAntisymmetric(a[1..], b[1..]);
      assert a == [a[0]] + a[1..] && b == [b[0]] + b[1..];
    }
  }

  lemma {:induction false} StrLeqTransitive(a: string, b: string, c: string)
    requires StrLeq(a, b) && StrLeq(b, c)
    ensures StrLeq(a, c)
    decreases |a|
  {
    if |a| > 0 && a[0] == b[0] && b[0] == c[0] {
      StrLeqTransitive(a[1..], b[1..], c[1..]);
    }
  }

  /** Everything the four-key comparison needs about three strings. */
  lemma StrLeqFacts(a: string, b: string, c: string)
    ensures StrLeq(a, b) || StrLeq(b, a)
    ensures StrLeq(a, b) && StrLeq(b, a) ==> a == b
    ensures StrLeq(b, c) && StrLeq(c, b) ==> b == c
    ensures StrLeq(a, c) && StrLeq(c, a) ==> a == c
    ensures StrLeq(a, b) && StrLeq(b, c) ==> StrLeq(a, c)
    ensures StrLeq(c, b) && StrLeq(b, a) ==> StrLeq(c, a)
  {
    StrLeqTotal(a, b);
    if StrLeq(a, b) && StrLeq(b, a) { StrLeqAntisymmetric(a, b); }
    if StrLeq(b, c) && StrLeq(c, b) { StrLeqAntisymmetric(b, c); }
    if StrLeq(a, c) && StrLeq(c, a) { StrLeqAntisymmetric(a, c); }
    if StrLeq(a, b) && StrLeq(b, c) { StrLeqTransitive(a, b, c); }
    if StrLeq(c, b) && StrLeq(b, a) { StrLeqTransitive(c, b, a); }
  }

  /** The four columns of the sitemap's `order_by`. */
  datatype SortKey = SortKey(package: string, sortableVersion: string, moduleName: string, klassName: string)

  function SortKeyOf(k: Klass): SortKey {
    var pv := k.parentModule.projectVersion;
    SortKey(pv.project.name, pv.sortableVersionNumber, k.parentModule.name, k.name)
  }

  /** `a` sorts no later than `b`; the version column is descending. */
  predicate KeyLeq(a: SortKey, b: SortKey) {
    if a.package != b.package then StrLeq(a.package, b.package)
    else if a.sortableVersion != b.sortableVersion then StrLeq(b.sortableVersion, a.sortableVersion)
    else if a.moduleName != b.moduleName then StrLeq(a.moduleName, b.moduleName)
    else StrLeq(a.klassName, b.klassName)
  }

  predicate SitemapLeq(x: Klass, y: Klass) {
    KeyLeq(SortKeyOf(x), SortKeyOf(y))
  }

  lemma KeyLeqTotal(a: SortKey, b: SortKey)
    ensures KeyLeq(a, b) || KeyLeq(b, a)
  {
    StrLeqTotal(a.package, b.package);
    StrLeqTotal(a.sortableVersion, b.sortableVersion);
    StrLeqTotal(a.moduleName, b.moduleName);
    StrLeqTotal(a.klassName, b.klassName);
  }

  lemma KeyLeqAntisymmetric(a: SortKey, b: SortKey)
    requires KeyLeq(a, b) && KeyLeq(b, a)
    ensures a == b
  {
    StrLeqFacts(a.package, b.package, b.package);
    StrLeqFacts(a.sortableVersion, b.sortableVersion, b.sortableVersion);
    StrLeqFacts(a.moduleName, b.moduleName, b.moduleName);
    StrLeqFacts(a.klassName, b.klassName, b.klassName);
  }

  lemma KeyLeqTransitive(a: SortKey, b: SortKey, c: SortKey)
    requires KeyLeq(a, b) && KeyLeq(b, c)
    ensures KeyLeq(a, c)
  {
    StrLeqFacts(a.package, b.package, c.package);
    StrLeqFacts(a.sortableVersion, b.sortableVersion, c.sortableVersion);
    StrLeqFacts(a.moduleName, b.moduleName, c.moduleName);
    StrLeqFacts(a.klassName, b.klassName, c.klassName);
  }

  ghost predicate SitemapSorted(s: seq<Klass>) {
    forall i, j :: 0 <= i < j < |s| ==> SitemapLeq(s[i], s[j])
  }

  /** Putting `x` in front of a sorted sequence whose head it precedes. */
  lemma SortedCons(x: Klass, s: seq<Klass>)
    requires SitemapSorted(s) && |s| > 0 && SitemapLeq(x, s[0])
    ensures SitemapSorted([x] + s)
  {
    forall j | 0 < j < |s|
      ensures SitemapLeq(x, s[j])
    {
      KeyLeqTransitive(SortKeyOf(x), SortKeyOf(s[0]), SortKeyOf(s[j]));
    }
  }

  /** Keeping the head of `s` in front when `x` goes further back. */
  lemma SortedKeepHead(x: Klass, s: seq<Klass>, rest: seq<Klass>)
    requires SitemapSorted(s) && |s| > 0 && !SitemapLeq(x, s[0])
    requires SitemapSorted(rest) && multiset(rest) == multiset(s[1..]) + multiset{x}
    ensures SitemapSorted([s[0]] + rest)
  {
    KeyLeqTotal(SortKeyOf(x), SortKeyOf(s[0]));
    forall j | 0 <= j < |rest|
      ensures SitemapLeq(s[0], rest[j])
    {
      assert rest[j] in multiset(rest);
      if rest[j] != x {
        assert rest[j] in multiset(s[1..]);
        var i :| 1 <= i < |s| && s[i] == rest[j];
      }
    }
  }

  /** Insert `x` into a sorted sequence after every class that sorts before it. */
  function Insert(x: Klass, s: seq<Klass>): (r: seq<Klass>)
    requires SitemapSorted(s)
    ensures SitemapSorted(r)
    ensures multiset(r) == multiset(s) + multiset{x}
    ensures |r| == |s| + 1
    decreases |s|
  {
    if |s| == 0 then [x]
    else if SitemapLeq(x, s[0]) then
      SortedCons(x, s);
      [x] + s
    else
      var rest := Insert(x, s[1..]);
      SortedKeepHead(x, s, rest);
      assert s == [s[0]] + s[1..];
      [s[0]] + rest
  }

  /** The classes in sitemap order: a permutation of `ks`, sorted by the
      four-key order. */
  function SitemapOrder(ks: seq<Klass>): (r: seq<Klass>)
    ensures SitemapSorted(r)
    ensures multiset(r) == multiset(ks)
    ensures |r| == |ks|
  {
    if |ks| == 0 then []
    else
      assert ks == [ks[0]] + ks[1..];
      Insert(ks[0], SitemapOrder(ks[1..]))
  }

  /** No two different classes tie on all four sort columns. */
  ghost predicate SortKeysDistinct(s: seq<Klass>) {
    forall i, j :: 0 <= i < |s| && 0 <= j < |s| && s[i] != s[j] ==> SortKeyOf(s[i]) != SortKeyOf(s[j])
  }

  /** Two sorted arrangements of the same classes start with the same
      class when no two classes tie. */
  lemma SortedHeadsAgree(a: seq<Klass>, b: seq<Klass>)
    requires SitemapSorted(a) && SitemapSorted(b)
    requires multiset(a) == multiset(b)
    requires SortKeysDistinct(a)
    requires |a| > 0
    ensures |b| > 0 && a[0] == b[0]
  {
    assert a[0] in multiset(b);
    var i :| 0 <= i < |b| && b[i] == a[0];
    assert b[0] in multiset(a);
    var j :| 0 <= j < |a| && a[j] == b[0];
    if a[0] != b[0] {
      assert SitemapLeq(b[0], a[0]) by {
        if i > 0 { assert SitemapLeq(b[0], b[i]); }
      }
      assert SitemapLeq(a[0], b[0]) by {
        if j > 0 { assert SitemapLeq(a[0], a[j]); }
      }
      KeyLeqAntisymmetric(SortKeyOf(a[0]), SortKeyOf(b[0]));
      assert false;
    }
  }

  lemma SortKeysDistinctTail(a: seq<Klass>)
    requires SortKeysDistinct(a) && |a| > 0
    ensures SortKeysDistinct(a[1..])
  {
    forall p, q | 0 <= p < |a[1..]| && 0 <= q < |a[1..]| && a[1..][p] != a[1..][q]
      ensures SortKeyOf(a[1..][p]) != SortKeyOf(a[1..][q])
    {
      assert a[1..][p] == a[p + 1] && a[1..][q] == a[q + 1];
    }
  }

  /** When no two classes tie on the four columns, the order is fully
      determined: any two sorted arrangements of the same classes are equal,
      so the store's `order_by` and `SitemapOrder` list the same sequence. */
  lemma {:induction false} SortedUnique(a: seq<Klass>, b: seq<Klass>)
    requires SitemapSorted(a) && SitemapSorted(b)
    requires multiset(a) == multiset(b)
    requires SortKeysDistinct(a)
    ensures a == b
    decreases |a|
  {
    assert |a| == |multiset(a)| == |multiset(b)| == |b|;
    if |a| > 0 {
      SortedHeadsAgree(a, b);
      assert a == [a[0]] + a[1..] && b == [b[0]] + b[1..];
      assert multiset(a) == multiset{a[0]} + multiset(a[1..]);
      assert multiset(b) == multiset{b[0]} + multiset(b[1..]);
      assert multiset(a[1..]) == multiset(a) - multiset{a[0]};
      assert multiset(b[1..]) == multiset(b) - multiset{b[0]};
      SortKeysDistinctTail(a);
      SortedUnique(a[1..], b[1..]);
    }
  }
}
