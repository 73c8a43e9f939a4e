/** The campaign kanban board (src/components/campaigns/KanbanBoard.tsx):
    bucketing campaigns into the four status columns, the status badge
    colour, and the two display rules of a campaign card. */
module Kanban {
  import opened Wrappers
  import opened Seqs

  /** `CampaignStatus`. */
  datatype CampaignStatus = Scheduled | Ongoing | Paused | Completed

  datatype Campaign = Campaign(
    id: int,
    name: string,
    platform: string,
    progress: int,
    leads: int,
    messagesDelivered: int,
    status: CampaignStatus,
    date: string,
    startTime: Option<string>,
    endTime: Option<string>,
    owner: Option<string>)

  /** The columns in the key order of the `campaignsByStatus` literal,
      which is the order `Object.entries` renders them in. */
  const ColumnOrder: seq<CampaignStatus> := [Scheduled, Ongoing, Paused, Completed]

  datatype Column = Column(status: CampaignStatus, campaigns: seq<Campaign>)

  /** The campaigns of column `s`. */
  function HasStatus(s: CampaignStatus): Campaign -> bool {
    (c: Campaign) => c.status == s
  }

  /** Reference definition of the board: column k holds, in input order,
      the campaigns whose status is the k-th status. */
  function Board(campaigns: seq<Campaign>): seq<Column> {
    seq(4, k requires 0 <= k < 4 => Column(ColumnOrder[k], Filter(campaigns, HasStatus(ColumnOrder[k]))))
  }

  /** `KanbanBoard`'s grouping: four empty arrays, then one pass over the
      campaigns pushing each onto the array of its status. */
  method GroupByStatus(campaigns: seq<Campaign>) returns (board: seq<Column>)
    ensures |board| == 4
    ensures forall k :: 0 <= k < 4 ==> board[k].status == ColumnOrder[k]
    ensures forall k :: 0 <= k < 4 ==> board[k].campaigns == Filter(campaigns, HasStatus(ColumnOrder[k]))
  {
    var scheduled, ongoing, paused, completed := [], [], [], [];
    var i := 0;
    assert campaigns[..i] == [];
    while i < |campaigns|
      invariant 0 <= i <= |campaigns|
      invariant scheduled == Filter(campaigns[..i], HasStatus(Scheduled))
      invariant ongoing == Filter(campaigns[..i], HasStatus(Ongoing))
      invariant paused == Filter(campaigns[..i], HasStatus(Paused))
      invariant completed == Filter(campaigns[..i], HasStatus(Completed))
    {
      var c := campaigns[i];
      ColumnStep(campaigns, i, Scheduled, scheduled);
      ColumnStep(campaigns, i, Ongoing, ongoing);
      ColumnStep(campaigns, i, Paused, paused);
      ColumnStep(campaigns, i, Completed, completed);
      match c.status {
        case Scheduled => scheduled := scheduled + [c];
        case Ongoing => ongoing := ongoing + [c];
        case Paused => paused := paused + [c];
        case Completed => completed := completed + [c];
      }
      i := i + 1;
    }
    assert campaigns[..i] == campaigns;
    board := [Column(Scheduled, scheduled), Column(Ongoing, ongoing),
              Column(Paused, paused), Column(Completed, completed)];
    assert board == Board(campaigns);
  }

  /** One step of the grouping pass, for the column of status `s`. */
  lemma ColumnStep(campaigns: seq<Campaign>, i: int, s: CampaignStatus, acc: seq<Campaign>)
    requires 0 <= i < |campaigns| && acc == Filter(campaigns[..i], HasStatus(s))
    ensures Filter(campaigns[..i + 1], HasStatus(s)) == if campaigns[i].status == s then acc + [campaigns[i]] else acc
  {
    FilterSnoc(campaigns, i, HasStatus(s));
  }

  /** Every campaign lands in the column of its own status and in no other. */
  lemma EachCampaignInItsColumn(campaigns: seq<Campaign>)
    ensures forall c, k :: c in campaigns && 0 <= k < 4 ==>
      (c in Board(campaigns)[k].campaigns <==> c.status == ColumnOrder[k])
  {
  }

  /** Within a column campaigns keep their relative input order. */
  lemma ColumnsKeepOrder(campaigns: seq<Campaign>, k: int)
    requires 0 <= k < 4
    ensures IsSubseq(Board(campaigns)[k].campaigns, campaigns)
  {
    FilterIsSubseq(campaigns, HasStatus(ColumnOrder[k]));
  }

  /** The four columns together hold exactly the input, counted with
      multiplicity: nothing is lost and nothing is duplicated. */
  lemma ColumnsPartition(campaigns: seq<Campaign>)
    ensures multiset(Board(campaigns)[0].campaigns) + multiset(Board(campaigns)[1].campaigns)
          + multiset(Board(campaigns)[2].campaigns) + multiset(Board(campaigns)[3].campaigns)
         == multiset(campaigns)
  {
    var b := Board(campaigns);
    var m0, m1 := multiset(b[0].campaigns), multiset(b[1].campaigns);
    var m2, m3 := multiset(b[2].campaigns), multiset(b[3].campaigns);
    forall c ensures (m0 + m1 + m2 + m3)[c] == multiset(campaigns)[c] {
      OneColumnCount(campaigns, c);
    }
  }

  /** A campaign is counted in its own column only, as often as in the input. */
  lemma OneColumnCount(campaigns: seq<Campaign>, c: Campaign)
    ensures multiset(Board(campaigns)[0].campaigns)[c] + multiset(Board(campaigns)[1].campaigns)[c]
          + multiset(Board(campaigns)[2].campaigns)[c] + multiset(Board(campaigns)[3].campaigns)[c]
         == multiset(campaigns)[c]
  {
    ColumnCount(campaigns, c, 0);
    ColumnCount(campaigns, c, 1);
    ColumnCount(campaigns, c, 2);
    ColumnCount(campaigns, c, 3);
  }

  lemma ColumnCount(campaigns: seq<Campaign>, c: Campaign, k: int)
    requires 0 <= k < 4
    ensures multiset(Board(campaigns)[k].campaigns)[c]
         == if c.status == ColumnOrder[k] then multiset(campaigns)[c] else 0
  {
    FilterCounts(campaigns, HasStatus(ColumnOrder[k]));
  }

  /** The column sizes add up to the number of campaigns. */
  lemma ColumnSizesAddUp(campaigns: seq<Campaign>)
    ensures |Board(campaigns)[0].campaigns| + |Board(campaigns)[1].campaigns|
          + |Board(campaigns)[2].campaigns| + |Board(campaigns)[3].campaigns| == |campaigns|
  {
    ColumnsPartition(campaigns);
    var b := Board(campaigns);
    assert |multiset(campaigns)| == |campaigns|;
    assert |multiset(b[0].campaigns) + multiset(b[1].campaigns) + multiset(b[2].campaigns) + multiset(b[3].campaigns)|
        == |b[0].campaigns| + |b[1].campaigns| + |b[2].campaigns| + |b[3].campaigns|;
  }

  /** All four columns exist even when there are no campaigns. */
  lemma EmptyBoard()
    ensures Board([]) == [Column(Scheduled, []), Column(Ongoing, []), Column(Paused, []), Column(Completed, [])]
  {
  }

  /** The badge classes of `getStatusColor` all share one shape and differ
      only in the colour family. */
  function Badge(hue: string): string {
    "bg-" + hue + "-900/20 text-" + hue + "-400 border-" + hue + "-700/30"
  }

  /** `getStatusColor(status)`. The `default` branch cannot be reached
      with a `CampaignStatus`. */
  function StatusColor(s: CampaignStatus): (r: string)
    ensures r == Badge("emerald") <==> s == Scheduled
    ensures r == Badge("amber") <==> s == Ongoing
    ensures r == Badge("orange") <==> s == Paused
    ensures r == Badge("violet") <==> s == Completed
  {
    assert Badge("emerald")[3] == 'e' && Badge("amber")[3] == 'a';
    assert Badge("orange")[3] == 'o' && Badge("violet")[3] == 'v';
    match s
    case Scheduled => Badge("emerald")
    case Ongoing => Badge("amber")
    case Paused => Badge("orange")
    case Completed => Badge("violet")
  }

  /** Each status has its own badge colour. */
  lemma StatusColorsDistinct(s: CampaignStatus, t: CampaignStatus)
    ensures StatusColor(s) == StatusColor(t) <==> s == t
  {
    assert StatusColor(Scheduled)[3] == 'e';
    assert StatusColor(Ongoing)[3] == 'a';
    assert StatusColor(Paused)[3] == 'o';
    assert StatusColor(Completed)[3] == 'v';
  }

  /** JavaScript truthiness of an optional string: present and non-empty. */
  predicate Truthy(o: Option<string>) {
    o.Some? && o.value != ""
  }

  /** The clock row of a card: `(start || "--")`, then `" - "` only when
      both times are truthy, then `(end || "")`; the row is rendered only
      when at least one time is truthy. */
  function TimeLabel(startTime: Option<string>, endTime: Option<string>): (r: Option<string>)
    ensures r.Some? <==> Truthy(startTime) || Truthy(endTime)
    ensures Truthy(startTime) && Truthy(endTime) ==> r == Some(startTime.value + " - " + endTime.value)
    ensures Truthy(startTime) && !Truthy(endTime) ==> r == Some(startTime.value)
    ensures !Truthy(startTime) && Truthy(endTime) ==> r == Some("--" + endTime.value)
  {
    if !(Truthy(startTime) || Truthy(endTime)) then None
    else
      var first := if Truthy(startTime) then startTime.value else "--";
      var sep := if Truthy(endTime) && Truthy(startTime) then " - " else "";
      var last := if Truthy(endTime) then endTime.value else "";
      assert first + "" + "" == first && "--" + "" + last == "--" + last;
      Some(first + sep + last)
  }

  /** The "Progress" row of a card, as the percentage it prints and fills
      the bar to; a scheduled campaign has no such row. */
  function ProgressBar(c: Campaign): (r: Option<int>)
    ensures r.Some? <==> c.status != Scheduled
    ensures r.Some? ==> r.value == c.progress
  {
    if c.status == Scheduled then None else Some(c.progress)
  }

  /** Within the board, only the Scheduled column renders cards without progress bars. */
  lemma ProgressByColumn(campaigns: seq<Campaign>, k: int, c: Campaign)
    requires 0 <= k < 4 && c in Board(campaigns)[k].campaigns
    ensures ProgressBar(c).Some? <==> k != 0
  {
  }
}
