/** The campaigns page (src/pages/Campaigns.tsx): its sample campaigns,
    the tab filter in front of the kanban board, and the empty state shown
    under it. The page never calls `setActiveTab`, so only the All tab is
    reached; the status tabs model the filter as written for them. */
module Campaigns {
  import opened Wrappers
  import opened Seqs
  import opened Kanban

  /** `activeTab`: 'All' or one campaign status. */
  datatype Tab = All | Only(status: CampaignStatus)

  /** `campaignData`. */
  const CampaignData: seq<Campaign> := [
    Campaign(1, "Summer Outreach", "Instagram", 67, 100, 67, Ongoing, "2023-09-01T10:30:00",
             Some("10:30 AM"), Some("2:30 PM"), Some("Alex Kim")),
    Campaign(2, "Product Launch", "LinkedIn", 100, 120, 120, Completed, "2023-08-15T14:45:00",
             Some("2:45 PM"), Some("5:00 PM"), Some("Sarah Johnson")),
    Campaign(3, "Feedback Collection", "Twitter", 0, 50, 0, Scheduled, "2023-09-10T09:15:00",
             Some("9:15 AM"), Some("12:00 PM"), Some("James Smith")),
    Campaign(4, "Influencer Outreach", "Instagram", 43, 75, 32, Ongoing, "2023-08-20T16:20:00",
             Some("4:20 PM"), Some("6:30 PM"), Some("Emily Chen")),
    Campaign(5, "Holiday Promotion", "Twitter", 0, 200, 0, Scheduled, "2023-09-05T11:30:00",
             Some("11:30 AM"), Some("3:00 PM"), Some("Michael Rogers")),
    Campaign(6, "User Reactivation", "Instagram", 25, 150, 37, Paused, "2023-08-25T14:00:00",
             Some("2:00 PM"), Some("5:30 PM"), Some("David Lee"))
  ]

  /** Whether a campaign belongs under a tab. */
  predicate InTab(tab: Tab, c: Campaign) {
    tab.All? || c.status == tab.status
  }

  /** `filteredCampaigns`. */
  function FilterCampaigns(tab: Tab, campaigns: seq<Campaign>): (r: seq<Campaign>)
    ensures IsSubseq(r, campaigns)
    ensures forall c :: c in r <==> c in campaigns && InTab(tab, c)
    ensures tab.All? ==> r == campaigns
    ensures forall c :: multiset(r)[c] == if InTab(tab, c) then multiset(campaigns)[c] else 0
  {
    match tab
    case All =>
      FilterKeepsAll(campaigns, (c: Campaign) => true);
      FilterIsSubseq(campaigns, (c: Campaign) => true);
      campaigns
    case Only(s) =>
      FilterIsSubseq(campaigns, HasStatus(s));
      FilterCounts(campaigns, HasStatus(s));
      Filter(campaigns, HasStatus(s))
  }

  /** The "No campaigns found" block, shown when the filtered list is
      empty: exactly when no campaign belongs under the tab. */
  function ShowsEmptyState(tab: Tab, campaigns: seq<Campaign>): (r: bool)
    ensures r <==> forall c :: c in campaigns ==> !InTab(tab, c)
  {
    var shown := FilterCampaigns(tab, campaigns);
    assert |shown| > 0 ==> shown[0] in shown;
    |shown| == 0
  }

  /** The empty state appears exactly when all four kanban columns under
      it are empty. */
  lemma EmptyStateIff(tab: Tab, campaigns: seq<Campaign>)
    ensures ShowsEmptyState(tab, campaigns) <==>
      forall k :: 0 <= k < 4 ==> Board(FilterCampaigns(tab, campaigns))[k].campaigns == []
  {
    var shown := FilterCampaigns(tab, campaigns);
    ColumnSizesAddUp(shown);
    if |shown| > 0 {
      assert shown[0] in shown;
    }
  }

  /** Under a status tab the board has one possibly non-empty column, the
      one of that status, and it holds the whole filtered list. */
  lemma OneColumnPerTab(s: CampaignStatus, campaigns: seq<Campaign>, k: int)
    requires 0 <= k < 4
    ensures ColumnOrder[k] != s ==> Board(FilterCampaigns(Only(s), campaigns))[k].campaigns == []
    ensures ColumnOrder[k] == s ==>
      Board(FilterCampaigns(Only(s), campaigns))[k].campaigns == FilterCampaigns(Only(s), campaigns)
  {
    var shown := FilterCampaigns(Only(s), campaigns);
    if ColumnOrder[k] != s {
      FilterDropsAll(shown, HasStatus(ColumnOrder[k]));
    } else {
      FilterIdempotent(campaigns, HasStatus(s));
    }
  }

  /** Under the All tab the board is the board of every campaign. */
  lemma AllTabShowsWholeBoard(campaigns: seq<Campaign>)
    ensures Board(FilterCampaigns(All, campaigns)) == Board(campaigns)
  {
  }

  /** With the sample data no tab shows the empty state. */
  lemma SampleTabsNeverEmpty(tab: Tab)
    ensures !ShowsEmptyState(tab, CampaignData)
  {
    var sample: Campaign :=
      match tab
      case All => CampaignData[0]
      case Only(Scheduled) => CampaignData[2]
      case Only(Ongoing) => CampaignData[0]
      case Only(Paused) => CampaignData[5]
      case Only(Completed) => CampaignData[1];
    assert sample in CampaignData && InTab(tab, sample);
    assert sample in FilterCampaigns(tab, CampaignData);
  }
}
