/** The breadcrumb trail above each page: Home, then the navigation entry
    the path names, or else one crumb per path segment. */
module Breadcrumb {
  import opened Wrappers
  import opened Text
  import opened Navigation

  /** One crumb; `text` is the JavaScript `label`. */
  datatype Crumb = Crumb(text: string, path: string)

  /** The first crumb of every trail (drawn with the home icon). */
  const Home := Crumb("Home", "/")

  /** The first entry of a list serving `path`. */
  function FindItem(items: seq<NavItem>, path: string): (r: Option<NavItem>)
    ensures r.Some? ==> r.value in items && r.value.path == path
    ensures r.Some? ==> exists i :: 0 <= i < |items| && items[i] == r.value &&
                                    forall j :: 0 <= j < i ==> items[j].path != path
    ensures r.None? <==> forall i :: 0 <= i < |items| ==> items[i].path != path
    decreases |items|
  {
    if items == [] then None
    else if items[0].path == path then Some(items[0])
    else FindItem(items[1..], path)
  }

  /** The first entry serving `path`, sections in order and entries in
      order within each section. */
  function FindInSections(nav: seq<Section>, path: string): (r: Option<NavItem>)
    ensures r.Some? ==> r.value in AllItems(nav) && r.value.path == path
    ensures r.Some? ==> exists i :: 0 <= i < |AllItems(nav)| && AllItems(nav)[i] == r.value &&
                                    forall j :: 0 <= j < i ==> AllItems(nav)[j].path != path
    ensures r.None? <==> forall it :: it in AllItems(nav) ==> it.path != path
    decreases |nav|
  {
    if nav == [] then None
    else
      var here := FindItem(nav[0].items, path);
      assert AllItems(nav) == nav[0].items + AllItems(nav[1..]);
      if here.Some? then
        FirstInPrefix(nav[0].items, AllItems(nav[1..]), path, here.value);
        here
      else
        var rest := FindInSections(nav[1..], path);
        if rest.Some? then
          FirstAfterPrefix(nav[0].items, AllItems(nav[1..]), path, rest.value);
          rest
        else rest
  }

  /** The first entry of `head` serving `path` is also the first of
      `head + tail`. */
  lemma FirstInPrefix(head: seq<NavItem>, tail: seq<NavItem>, path: string, x: NavItem)
    requires exists i :: 0 <= i < |head| && head[i] == x && forall j :: 0 <= j < i ==> head[j].path != path
    ensures exists i :: 0 <= i < |head + tail| && (head + tail)[i] == x &&
                        forall j :: 0 <= j < i ==> (head + tail)[j].path != path
  {
    var i :| 0 <= i < |head| && head[i] == x && forall j :: 0 <= j < i ==> head[j].path != path;
    assert (head + tail)[i] == x;
    assert forall j :: 0 <= j < i ==> (head + tail)[j] == head[j];
  }

  /** When no entry of `head` serves `path`, the first of `tail` serving
      it is the first of `head + tail`. */
  lemma FirstAfterPrefix(head: seq<NavItem>, tail: seq<NavItem>, path: string, x: NavItem)
    requires forall j :: 0 <= j < |head| ==> head[j].path != path
    requires exists i :: 0 <= i < |tail| && tail[i] == x && forall j :: 0 <= j < i ==> tail[j].path != path
    ensures exists i :: 0 <= i < |head + tail| && (head + tail)[i] == x &&
                        forall j :: 0 <= j < i ==> (head + tail)[j].path != path
  {
    var i :| 0 <= i < |tail| && tail[i] == x && forall j :: 0 <= j < i ==> tail[j].path != path;
    var k := |head| + i;
    assert (head + tail)[k] == x;
    forall j | 0 <= j < k
      ensures (head + tail)[j].path != path
    {
      if j >= |head| {
        assert (head + tail)[j] == tail[j - |head|];
      }
    }
  }

  /** The fallback crumbs: crumb `i` is labelled from segment `i` and links
      to the path made of the first `i + 1` segments. */
  function SegmentCrumbs(segs: seq<string>): (r: seq<Crumb>)
    ensures |r| == |segs|
    ensures forall i :: 0 <= i < |segs| ==> r[i] == Crumb(SegmentLabel(segs[i]), "/" + Join(segs[..i + 1], "/"))
  {
    seq(|segs|, i requires 0 <= i < |segs| => Crumb(SegmentLabel(segs[i]), "/" + Join(segs[..i + 1], "/")))
  }

  /** The trail for a path, as the hook computes it. */
  function Breadcrumbs(nav: seq<Section>, pathname: string): seq<Crumb>
  {
    if pathname == "/" then [Home]
    else match FindInSections(nav, pathname)
      case Some(item) => [Home, Crumb(item.text, item.path)]
      case None => [Home] + SegmentCrumbs(PathSegments(pathname))
  }

  /** `useBreadcrumbs`: start from Home, return at once for '/', search the
      sections entry by entry and return on the first entry serving the
      path, and otherwise add one crumb per segment. */
  method UseBreadcrumbs(nav: seq<Section>, pathname: string) returns (crumbs: seq<Crumb>)
    ensures crumbs == Breadcrumbs(nav, pathname)
  {
    crumbs := [Home];
    if pathname == "/" {
      return;
    }
    var found := SearchSections(nav, pathname);
    if found.Some? {
      crumbs := crumbs + [Crumb(found.value.text, found.value.path)];
      return;
    }
    var segments := PathSegments(pathname);
    var idx := 0;
    while idx < |segments|
      invariant 0 <= idx <= |segments|
      invariant crumbs == [Home] + SegmentCrumbs(segments)[..idx]
    {
      var path := "/" + Join(segments[..idx + 1], "/");
      var text := SegmentLabel(segments[idx]);
      assert SegmentCrumbs(segments)[..idx + 1] == SegmentCrumbs(segments)[..idx] + [Crumb(text, path)];
      crumbs := crumbs + [Crumb(text, path)];
      idx := idx + 1;
    }
    assert SegmentCrumbs(segments)[..idx] == SegmentCrumbs(segments);
  }

  /** The nested loop of `useBreadcrumbs` over the sections and their
      entries, stopping at the first entry serving `pathname`. */
  method SearchSections(nav: seq<Section>, pathname: string) returns (found: Option<NavItem>)
    ensures found == FindInSections(nav, pathname)
  {
    var si := 0;
    while si < |nav|
      invariant 0 <= si <= |nav|
      invariant FindInSections(nav[si..], pathname) == FindInSections(nav, pathname)
    {
      var items := nav[si].items;
      var ii := 0;
      while ii < |items|
        invariant 0 <= ii <= |items|
        invariant FindItem(items[ii..], pathname) == FindItem(items, pathname)
      {
        if items[ii].path == pathname {
          SectionStep(nav, si, pathname);
          return Some(items[ii]);
        }
        assert items[ii..][1..] == items[ii + 1..];
        ii := ii + 1;
      }
      SectionStep(nav, si, pathname);
      si := si + 1;
    }
    return None;
  }

  /** Searching from section `si` on looks in that section first, then
      in the sections after it. */
  lemma SectionStep(nav: seq<Section>, si: int, path: string)
    requires 0 <= si < |nav|
    ensures FindInSections(nav[si..], path) ==
      (if FindItem(nav[si].items, path).Some? then FindItem(nav[si].items, path) else FindInSections(nav[si + 1..], path))
  {
    assert nav[si..][1..] == nav[si + 1..];
  }

  /** The component draws the trail only when it has more than one crumb. */
  predicate Renders(crumbs: seq<Crumb>)
  {
    |crumbs| > 1
  }

  /** Every trail starts at Home, and '/' has nothing else. */
  lemma StartsAtHome(nav: seq<Section>, pathname: string)
    ensures |Breadcrumbs(nav, pathname)| >= 1 && Breadcrumbs(nav, pathname)[0] == Home
    ensures pathname == "/" ==> Breadcrumbs(nav, pathname) == [Home]
  {
  }

  /** A path some entry of the navigation table serves gets Home and that
      entry; paths in the table are distinct, so it is the only entry. */
  lemma NavigationPathCrumbs(it: NavItem)
    requires it in AllItems(NavigationItems) && it.path != "/"
    ensures Breadcrumbs(NavigationItems, it.path) == [Home, Crumb(it.text, it.path)]
  {
    NavigationPathsDistinct();
    var all := AllItems(NavigationItems);
    var found := FindInSections(NavigationItems, it.path);
    assert found.Some?;
    var i :| 0 <= i < |all| && all[i] == it;
    var j :| 0 <= j < |all| && all[j] == found.value;
    assert i == j;
  }

  /** Off the table, a path built from segments gets one crumb per segment,
      and the last crumb links back to the path itself. */
  lemma FallbackCrumbs(nav: seq<Section>, segs: seq<string>)
    requires |segs| >= 1
    requires forall k :: 0 <= k < |segs| ==> segs[k] != "" && '/' !in segs[k]
    requires FindInSections(nav, "/" + Join(segs, "/")).None?
    ensures var pathname := "/" + Join(segs, "/");
      var crumbs := Breadcrumbs(nav, pathname);
      |crumbs| == |segs| + 1 && crumbs[|segs|].path == pathname &&
      forall k :: 0 <= k < |segs| ==> crumbs[k + 1].text == SegmentLabel(segs[k])
  {
    var pathname := "/" + Join(segs, "/");
    assert pathname != "/" by {
      if pathname == "/" {
        JoinNonEmpty(segs, "/");
      }
    }
    PathSegmentsOfJoin(segs);
    assert segs[..|segs|] == segs;
  }

  /** The trail is drawn exactly when the path is not '/' and either names
      a navigation entry or has at least one segment. */
  lemma RendersIff(nav: seq<Section>, pathname: string)
    ensures Renders(Breadcrumbs(nav, pathname)) <==>
      pathname != "/" && (FindInSections(nav, pathname).Some? || PathSegments(pathname) != [])
  {
  }
}
