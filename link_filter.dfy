/** The pure part of the link list page (src/pages/links/LinkList.tsx): the
    search and category filters of `filterLinks`, the category list derived
    in `fetchLinks`, and the table's page-size configuration. */
module LinkFilter {
  import opened Types
  import opened Text
  import opened Sequences

  /** The category selector's "All Categories" option. */
  const AllCategories: string := "all"

  /** The table's initial page size and the sizes its size changer offers. */
  const DefaultPageSize: nat := 10
  const PageSizeOptions: seq<nat> := [10, 20, 50, 100]

  /** The search text occurs, ignoring case, in the title, the url or the
      description; a missing description never matches. */
  predicate MatchesSearch(link: Link, searchText: string)
  {
    var query := Lower(searchText);
    || Includes(Lower(link.title), query)
    || Includes(Lower(link.url), query)
    || (link.description.Some? && Includes(Lower(link.description.value), query))
  }

  /** The search filter runs only for a non-empty search text. */
  predicate SearchActive(searchText: string)
  {
    searchText != ""
  }

  /** The category filter runs unless the selection is "" or "all". */
  predicate CategoryActive(selectedCategory: string)
  {
    selectedCategory != "" && selectedCategory != AllCategories
  }

  /** Whether one link survives both filters: the two conditions joined by
      AND, the category compared exactly. */
  predicate Kept(link: Link, searchText: string, selectedCategory: string)
  {
    && (!SearchActive(searchText) || MatchesSearch(link, searchText))
    && (!CategoryActive(selectedCategory) || link.category == selectedCategory)
  }

  function BySearch(links: seq<Link>, searchText: string): seq<Link>
  {
    if SearchActive(searchText) then Retain(links, l => MatchesSearch(l, searchText)) else links
  }

  function ByCategory(links: seq<Link>, selectedCategory: string): seq<Link>
  {
    if CategoryActive(selectedCategory) then Retain(links, (l: Link) => l.category == selectedCategory) else links
  }

  /** `filterLinks`: the search filter first, then the category filter. */
  function FilterLinks(links: seq<Link>, searchText: string, selectedCategory: string): (r: seq<Link>)
    ensures |r| <= |links|
    ensures !SearchActive(searchText) && !CategoryActive(selectedCategory) ==> r == links
  {
    ByCategory(BySearch(links, searchText), selectedCategory)
  }

  /** A link is in the filtered list exactly when it is in `links` and both
      filters keep it. */
  lemma FilterLinksMembers(links: seq<Link>, searchText: string, selectedCategory: string)
    ensures forall l :: l in FilterLinks(links, searchText, selectedCategory)
                    <==> l in links && Kept(l, searchText, selectedCategory)
  {
    FilterLinksIsRetainKept(links, searchText, selectedCategory);
    RetainMembers(links, l => Kept(l, searchText, selectedCategory));
  }

  /** The two filters together are a single order-preserving filter by
      `Kept`, so multiplicities and order of the kept links are those of
      `links`. */
  lemma FilterLinksIsRetainKept(links: seq<Link>, searchText: string, selectedCategory: string)
    ensures FilterLinks(links, searchText, selectedCategory)
         == Retain(links, l => Kept(l, searchText, selectedCategory))
  {
    var bySearch := l => MatchesSearch(l, searchText);
    var byCategory := (l: Link) => l.category == selectedCategory;
    var kept := l => Kept(l, searchText, selectedCategory);
    if SearchActive(searchText) && CategoryActive(selectedCategory) {
      RetainFuse(links, bySearch, byCategory, kept);
    } else if SearchActive(searchText) {
      RetainCongruent(links, bySearch, kept);
    } else if CategoryActive(selectedCategory) {
      RetainCongruent(links, byCategory, kept);
    } else {
      RetainAll(links, kept);
    }
  }

  /** A filter that keeps everything returns its input. */
  lemma {:induction false} RetainAll(links: seq<Link>, p: Link -> bool)
    requires forall l :: p(l)
    ensures Retain(links, p) == links
  {
    if links != [] {
      RetainAll(links[..|links| - 1], p);
      assert links == links[..|links| - 1] + [links[|links| - 1]];
    }
  }

  /** The filtered list is an order-preserving subsequence of `links`. */
  lemma FilterLinksIsSubsequence(links: seq<Link>, searchText: string, selectedCategory: string)
    ensures IsSubsequence(FilterLinks(links, searchText, selectedCategory), links)
  {
    FilterLinksIsRetainKept(links, searchText, selectedCategory);
    RetainIsSubsequence(links, l => Kept(l, searchText, selectedCategory));
  }

  /** With no search text and category "all" or "", nothing is filtered. */
  lemma FilterLinksWithoutFilters(links: seq<Link>, selectedCategory: string)
    requires selectedCategory == AllCategories || selectedCategory == ""
    ensures FilterLinks(links, "", selectedCategory) == links
  {
  }

  /** Filtering by category first and searching second gives the same list
      as the page's order. */
  lemma FilterOrderIrrelevant(links: seq<Link>, searchText: string, selectedCategory: string)
    ensures BySearch(ByCategory(links, selectedCategory), searchText)
         == FilterLinks(links, searchText, selectedCategory)
  {
    if SearchActive(searchText) && CategoryActive(selectedCategory) {
      RetainCommute(links, l => MatchesSearch(l, searchText), (l: Link) => l.category == selectedCategory);
    }
  }

  /** Re-filtering a filtered list with the same inputs returns it unchanged. */
  lemma FilterLinksIdempotent(links: seq<Link>, searchText: string, selectedCategory: string)
    ensures FilterLinks(FilterLinks(links, searchText, selectedCategory), searchText, selectedCategory)
         == FilterLinks(links, searchText, selectedCategory)
  {
    var kept := l => Kept(l, searchText, selectedCategory);
    FilterLinksIsRetainKept(links, searchText, selectedCategory);
    FilterLinksIsRetainKept(FilterLinks(links, searchText, selectedCategory), searchText, selectedCategory);
    RetainIdempotent(links, kept);
  }

  /** Search texts that differ only in the case of letters select the same
      links. */
  lemma SearchIgnoresCase(links: seq<Link>, searchText: string, otherText: string, selectedCategory: string)
    requires Lower(searchText) == Lower(otherText)
    ensures FilterLinks(links, searchText, selectedCategory) == FilterLinks(links, otherText, selectedCategory)
  {
    assert |searchText| == |otherText|;
    if SearchActive(searchText) {
      RetainCongruent(links, l => MatchesSearch(l, searchText), l => MatchesSearch(l, otherText));
    }
  }

  /** The category filter, unlike the search, is case-sensitive: a "Design"
      link is found by the search "DESIGN" but not by the category "design". */
  lemma CategoryIsCaseSensitive()
    ensures var link := Link("1", "Design systems", "https://example.com", None, "Design", "", "");
            && FilterLinks([link], "DESIGN", AllCategories) == [link]
            && FilterLinks([link], "", "design") == []
            && FilterLinks([link], "", "Design") == [link]
  {
    var link := Link("1", "Design systems", "https://example.com", None, "Design", "", "");
    assert Lower("DESIGN") == "design";
    assert Lower(link.title)[..6] == "design";
    assert MatchesSearch(link, "DESIGN");
    assert [link][..0] == [];
  }

  /** A search matches on the title of one link and on the description of
      another. */
  lemma SearchScenario()
    ensures var guide := Link("1", "GitHub Guide", "https://github.com", None, "Development", "", "");
            var docs := Link("2", "Docs", "https://docs.example.com", Some("uses git"), "Development", "", "");
            FilterLinks([guide, docs], "git", AllCategories) == [guide, docs]
  {
    var guide := Link("1", "GitHub Guide", "https://github.com", None, "Development", "", "");
    var docs := Link("2", "Docs", "https://docs.example.com", Some("uses git"), "Development", "", "");
    var search := l => MatchesSearch(l, "git");
    assert Lower("git") == "git";
    assert Lower(guide.title)[..3] == "git";
    assert MatchesSearch(guide, "git");
    var description := Lower(docs.description.value);
    assert description[5..8] == "git";
    assert OccursAt(description, "git", 5);
    IncludesIff(description, "git");
    assert MatchesSearch(docs, "git");
    RetainSnoc([], guide, search);
    assert [] + [guide] == [guide];
    RetainSnoc([guide], docs, search);
    assert [guide] + [docs] == [guide, docs];
  }

  /** Five links, three in "Design" and two in "Tools". */
  function DemoLinks(): seq<Link>
  {
    [Link("1", "Figma", "https://figma.com", None, "Design", "", ""),
     Link("2", "Make", "https://make.com", None, "Tools", "", ""),
     Link("3", "Dribbble", "https://dribbble.com", None, "Design", "", ""),
     Link("4", "Jq", "https://jq.dev", None, "Tools", "", ""),
     Link("5", "Coolors", "https://coolors.co", None, "Design", "", "")]
  }

  /** Selecting "Design" keeps exactly its three links, in order. */
  lemma CategoryScenario()
    ensures FilterLinks(DemoLinks(), "", "Design") == [DemoLinks()[0], DemoLinks()[2], DemoLinks()[4]]
  {
    var links := DemoLinks();
    var design := (l: Link) => l.category == "Design";
    var s1 := [links[0]];
    var s2 := s1 + [links[1]];
    var s3 := s2 + [links[2]];
    var s4 := s3 + [links[3]];
    RetainSnoc([], links[0], design);
    assert [] + [links[0]] == s1;
    RetainSnoc(s1, links[1], design);
    RetainSnoc(s2, links[2], design);
    RetainSnoc(s3, links[3], design);
    RetainSnoc(s4, links[4], design);
    assert links == s4 + [links[4]];
  }

  /** The category list, computed from all links, still offers both
      categories whichever one is selected. */
  lemma CategoryListScenario()
    ensures "Design" in Categories(DemoLinks()) && "Tools" in Categories(DemoLinks())
  {
    var links := DemoLinks();
    CategoriesListed(links);
    assert links[0] in links && links[1] in links;
  }

  /** The category of every link, in list order. */
  function CategoryColumn(links: seq<Link>): (all: seq<string>)
    ensures |all| == |links|
    ensures forall i :: 0 <= i < |links| ==> all[i] == links[i].category
  {
    seq(|links|, i requires 0 <= i < |links| => links[i].category)
  }

  /** The category list: every distinct category of `links`, once each
      (which categories those are is `CategoriesListed`). */
  function Categories(links: seq<Link>): (r: seq<string>)
    ensures NoDuplicates(r)
    ensures |r| <= |links|
  {
    Distinct(CategoryColumn(links))
  }

  /** The category list holds the category of every link and nothing else. */
  lemma CategoriesListed(links: seq<Link>)
    ensures forall l :: l in links ==> l.category in Categories(links)
    ensures forall c :: c in Categories(links) ==> exists l :: l in links && l.category == c
  {
    var all := CategoryColumn(links);
    forall l | l in links
      ensures l.category in Categories(links)
    {
      var i :| 0 <= i < |links| && links[i] == l;
      assert all[i] in all;
    }
    forall c | c in Categories(links)
      ensures exists l :: l in links && l.category == c
    {
      var i :| 0 <= i < |all| && all[i] == c;
      assert links[i] in links;
    }
  }

  /** The default page size is one of the offered sizes, which are strictly
      increasing. */
  lemma PageSizeConfig()
    ensures DefaultPageSize in PageSizeOptions
    ensures forall i, j :: 0 <= i < j < |PageSizeOptions| ==> PageSizeOptions[i] < PageSizeOptions[j]
  {
  }
}
