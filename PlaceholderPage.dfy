/** The stand-in page for sections not built yet, and the title it shows. */
module PlaceholderPage {
  import opened Wrappers
  import opened Text
  import Seqs

  /** The separator between segment labels, as the page's source text spells
      it: the em dash's UTF-8 bytes read as three Windows-1252 characters. */
  const Separator: string := " \U{00E2}\U{20AC}\U{201D} "

  /** The title derived from the path: the segment labels joined by the
      separator. */
  function PathTitle(pathname: string): (t: string)
    ensures t == "" <==> PathSegments(pathname) == []
  {
    var labels := Seqs.Map(PathSegments(pathname), SegmentLabel);
    if labels != [] then
      JoinNonEmpty(labels, Separator);
      Join(labels, Separator)
    else Join(labels, Separator)
  }

  /** `displayTitle`: a non-empty `title` prop verbatim; otherwise the
      path's title; and 'Page' when the path has no segment. */
  function DisplayTitle(title: Option<string>, pathname: string): (r: string)
    ensures title.Some? && title.value != "" ==> r == title.value
    ensures (title.None? || title.value == "") && PathSegments(pathname) == [] ==> r == "Page"
    ensures (title.None? || title.value == "") && PathSegments(pathname) != [] ==> r == PathTitle(pathname)
  {
    if title.Some? && title.value != "" then title.value
    else
      var t := PathTitle(pathname);
      if t != "" then t else "Page"
  }

  /** A path made of segments is titled by their labels joined with the
      separator. */
  lemma TitleOfSegments(segs: seq<string>)
    requires |segs| >= 1
    requires forall k :: 0 <= k < |segs| ==> segs[k] != "" && '/' !in segs[k]
    ensures DisplayTitle(None, "/" + Join(segs, "/")) == Join(Seqs.Map(segs, SegmentLabel), Separator)
  {
    PathSegmentsOfJoin(segs);
  }

  /** A single segment gives its label alone, with no separator. */
  lemma SingleSegmentTitle(seg: string)
    requires seg != "" && '/' !in seg
    ensures DisplayTitle(None, "/" + seg) == SegmentLabel(seg)
  {
    assert Join([seg], "/") == seg;
    TitleOfSegments([seg]);
    assert Seqs.Map([seg], SegmentLabel) == [SegmentLabel(seg)];
  }

  /** The root path has no segment, so the page is titled 'Page'. */
  lemma RootTitle()
    ensures DisplayTitle(None, "/") == "Page"
  {
    assert IndexOf("/", '/') == 0;
    assert "/"[1..] == "";
    assert Split("/", '/') == ["", ""];
    assert Seqs.Filter(["", ""], (s: string) => s != "") == [] by {
      Seqs.FilterDropsAll(["", ""], (s: string) => s != "");
    }
  }
}
