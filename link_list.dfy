/** The state of the link list page (src/pages/links/LinkList.tsx): the last
    fetched links, the filter inputs, the derived category list and the
    filtered rows the table shows. Every handler below ends with the
    re-filter effect, which React runs whenever `links`, `searchText` or
    `selectedCategory` changed. */
module LinkList {
  import opened Types
  import opened LinkFilter

  class LinkListPage {
    var links: seq<Link>
    var filteredLinks: seq<Link>
    var loading: bool
    var searchText: string
    var selectedCategory: string
    var categories: seq<string>

    /** The rows shown are always the filter of the last fetched links, and
        the category list is always derived from all of them, never from
        the filtered rows. */
    ghost predicate Valid()
      reads this
    {
      && filteredLinks == FilterLinks(links, searchText, selectedCategory)
      && categories == Categories(links)
    }

    /** The page mounts with no links, an empty search and "all". */
    constructor ()
      ensures Valid()
      ensures links == [] && filteredLinks == [] && categories == []
      ensures !loading && searchText == "" && selectedCategory == AllCategories
    {
      links := [];
      filteredLinks := [];
      loading := false;
      searchText := "";
      selectedCategory := AllCategories;
      categories := [];
    }

    /** `filterLinks`: recompute the shown rows from the current inputs. */
    method Refilter()
      requires categories == Categories(links)
      modifies this`filteredLinks
      ensures filteredLinks == FilterLinks(links, searchText, selectedCategory)
      ensures Valid()
    {
      filteredLinks := FilterLinks(links, searchText, selectedCategory);
    }

    /** `fetchLinks` followed by the re-filter effect. On success the links
        and the category list are replaced; on failure both keep their
        values. Loading ends false either way, and the filter inputs are not
        touched. */
    method FetchLinks(response: Result<seq<Link>, HttpError>)
      requires Valid()
      modifies this
      ensures Valid()
      ensures links == (if response.Ok? then response.value else old(links))
      ensures categories == (if response.Ok? then Categories(response.value) else old(categories))
      ensures searchText == old(searchText) && selectedCategory == old(selectedCategory)
      ensures !loading
    {
      loading := true;
      if response.Ok? {
        var data := response.value;
        links := data;
        categories := Categories(data);
      }
      loading := false;
      Refilter();
    }

    /** Typing in the search box; the category list does not change. */
    method SetSearchText(text: string)
      requires Valid()
      modifies this
      ensures Valid()
      ensures searchText == text
      ensures links == old(links) && categories == old(categories)
      ensures selectedCategory == old(selectedCategory) && loading == old(loading)
    {
      searchText := text;
      Refilter();
    }

    /** Picking a category in the selector; the category list does not
        change. */
    method SetSelectedCategory(category: string)
      requires Valid()
      modifies this
      ensures Valid()
      ensures selectedCategory == category
      ensures links == old(links) && categories == old(categories)
      ensures searchText == old(searchText) && loading == old(loading)
    {
      selectedCategory := category;
      Refilter();
    }

    /** The navigation-state effect: arriving from the dashboard with a
        non-empty category selects it; otherwise nothing changes. */
    method ApplyNavigationCategory(category: Option<string>)
      requires Valid()
      modifies this
      ensures Valid()
      ensures selectedCategory
           == (if category.Some? && category.value != "" then category.value else old(selectedCategory))
      ensures links == old(links) && categories == old(categories)
      ensures searchText == old(searchText) && loading == old(loading)
    {
      if category.Some? && category.value != "" {
        selectedCategory := category.value;
        Refilter();
      }
    }
  }
}
