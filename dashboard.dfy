/** The dashboard page (src/pages/dashboard/Dashboard.tsx): its fetched
    links and categories, the five most recent links and the three counters
    it displays. */
module Dashboard {
  import opened Types
  import opened Sequences
  import opened LinkFilter

  /** How many links the "Recent Links" table shows. */
  const RecentCount: nat := 5

  /** `links.slice(0, 5)`: the first links in fetch order, at most five. */
  function RecentLinks(links: seq<Link>): (r: seq<Link>)
    ensures |r| == if |links| < RecentCount then |links| else RecentCount
    ensures r <= links
  {
    if |links| < RecentCount then links else links[..RecentCount]
  }

  /** The three statistic cards: total links, categories, recent links. */
  datatype Statistics = Statistics(total: nat, categories: nat, recent: nat)

  function StatisticsOf(links: seq<Link>, categories: seq<string>): (stats: Statistics)
    ensures stats.total == |links| && stats.categories == |categories|
    ensures stats.recent == if |links| < RecentCount then |links| else RecentCount
  {
    Statistics(|links|, |categories|, |RecentLinks(links)|)
  }

  /** On a dashboard whose category list is derived from its links, there
      are never more categories than links, and the recent count is at most
      five and at most the total. */
  lemma StatisticsBounds(links: seq<Link>)
    ensures var stats := StatisticsOf(links, Categories(links));
            && stats.recent <= RecentCount
            && stats.recent <= stats.total
            && stats.categories <= stats.total
            && (stats.total > 0 ==> stats.categories > 0)
  {
    if |links| > 0 {
      CategoriesListed(links);
      assert links[0] in links;
    }
  }

  class DashboardPage {
    var links: seq<Link>
    var loading: bool
    var categories: seq<string>

    /** The category list always belongs to the links on display. */
    ghost predicate Valid()
      reads this
    {
      categories == Categories(links)
    }

    /** The dashboard mounts loading, with no links. */
    constructor ()
      ensures Valid()
      ensures links == [] && categories == [] && loading
    {
      links := [];
      loading := true;
      categories := [];
    }

    /** `fetchLinks`: on success the links and their distinct categories are
        stored; on failure both keep their previous values. Loading is false
        afterwards in every outcome. */
    method FetchLinks(response: Result<seq<Link>, HttpError>)
      requires Valid()
      modifies this
      ensures Valid()
      ensures links == (if response.Ok? then response.value else old(links))
      ensures categories == (if response.Ok? then Categories(response.value) else old(categories))
      ensures !loading
    {
      loading := true;
      if response.Ok? {
        var data := response.value;
        links := data;
        categories := Categories(data);
      }
      loading := false;
    }

    /** The counters the page renders once loading has finished. */
    function Stats(): (s: Statistics)
      reads this
      requires Valid()
      ensures s.recent <= RecentCount && s.recent <= s.total && s.categories <= s.total
    {
      StatisticsBounds(links);
      StatisticsOf(links, categories)
    }
  }
}
