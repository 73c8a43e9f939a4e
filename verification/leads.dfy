/** The leads table (src/pages/Leads.tsx): its fixed sample rows, row and
    header checkboxes, the status badge class and the "never contacted"
    date label. */
module Leads {
  import opened Wrappers
  import opened Seqs
  import Selection

  datatype Lead = Lead(id: int, platform: string, username: string, fullName: string,
                       lastContacted: Option<string>, status: string)

  /** `leadsData`. */
  const LeadsData: seq<Lead> := [
    Lead(1, "Instagram", "@johndoe", "John Doe", Some("2023-09-10T10:30:00"), "New"),
    Lead(2, "Twitter", "@janesmith", "Jane Smith", Some("2023-09-08T14:45:00"), "Contacted"),
    Lead(3, "LinkedIn", "@robertjohnson", "Robert Johnson", Some("2023-09-05T09:15:00"), "Unresponsive"),
    Lead(4, "Instagram", "@sarahwilson", "Sarah Wilson", Some("2023-09-01T16:20:00"), "Contacted"),
    Lead(5, "Twitter", "@michaelbrown", "Michael Brown", None, "New")
  ]

  /** `leadsData.map(lead => lead.id)`: the ids in table order. */
  const LeadIds: seq<int> := Map(LeadsData, (lead: Lead) => lead.id)

  /** The table lists the distinct ids 1 to 5. */
  lemma LeadIdsAreTableOrder()
    ensures LeadIds == [1, 2, 3, 4, 5]
    ensures NoDup(LeadIds)
  {
    assert LeadIds == [1, 2, 3, 4, 5];
  }

  /** `toggleLeadSelection(id)`. */
  function ToggleLeadSelection(sel: seq<int>, id: int): (r: seq<int>)
    ensures id in r <==> id !in sel
    ensures forall x :: x != id ==> (x in r <==> x in sel)
    ensures id in sel ==> r == Selection.Without(sel, id)
    ensures id !in sel ==> r == sel + [id]
  {
    Selection.Toggle(sel, id)
  }

  /** Two clicks on the same row restore the set of selected leads. */
  lemma DoubleToggleRestores(sel: seq<int>, id: int)
    ensures Elems(ToggleLeadSelection(ToggleLeadSelection(sel, id), id)) == Elems(sel)
  {
    Selection.ToggleTwice(sel, id);
  }

  /** `toggleAllLeads()`. */
  function ToggleAllLeads(sel: seq<int>): (r: seq<int>)
    ensures |sel| == 5 ==> r == []
    ensures |sel| != 5 ==> r == [1, 2, 3, 4, 5]
  {
    LeadIdsAreTableOrder();
    Selection.ToggleAll(sel, LeadIds)
  }

  /** What the table's selection always is: distinct ids of its rows. */
  predicate ValidSelection(sel: seq<int>) {
    NoDup(sel) && forall x :: x in sel ==> x in LeadIds
  }

  /** The table starts with nothing selected, and a click on a row's box
      (whose id is a row's id) or on the header box keeps the selection
      made of distinct ids of the rows. */
  lemma LeadSelectionInvariant(sel: seq<int>, id: int)
    requires ValidSelection(sel)
    requires id in LeadIds
    ensures ValidSelection([])
    ensures ValidSelection(ToggleLeadSelection(sel, id))
    ensures ValidSelection(ToggleAllLeads(sel))
  {
    LeadIdsAreTableOrder();
    Selection.ToggleNoDup(sel, id);
    Selection.ToggleStaysWithin(sel, id, LeadIds);
  }

  /** For a selection the table can reach, the header box
      (`checked={selectedLeads.length === leadsData.length}`) is checked
      exactly when every lead is selected. */
  lemma HeaderCheckedMeansAllLeads(sel: seq<int>)
    requires ValidSelection(sel)
    ensures Selection.AllChecked(sel, LeadIds) <==> forall i :: 0 <= i < |LeadsData| ==> LeadsData[i].id in sel
  {
    LeadIdsAreTableOrder();
    assert forall i :: 0 <= i < |LeadsData| ==> LeadsData[i].id == LeadIds[i];
  }

  const NewClass := "bg-blue-500/10 text-blue-500"
  const ContactedClass := "bg-yellow/10 text-yellow"
  const UnresponsiveClass := "bg-red-500/10 text-red-500"
  const DefaultClass := "bg-muted text-muted-foreground"

  /** `getStatusClass(status)`. */
  function StatusClass(status: string): (r: string)
    ensures status == "New" <==> r == NewClass
    ensures status == "Contacted" <==> r == ContactedClass
    ensures status == "Unresponsive" <==> r == UnresponsiveClass
    ensures status !in {"New", "Contacted", "Unresponsive"} <==> r == DefaultClass
  {
    match status
    case "New" => NewClass
    case "Contacted" => ContactedClass
    case "Unresponsive" => UnresponsiveClass
    case _ => DefaultClass
  }

  /** `formatDate(dateString)`. Any present, non-empty string is handed to
      the locale formatter `intl`, which is not modelled. */
  function FormatDate(dateString: Option<string>, intl: string -> string): (r: string)
    ensures dateString == None || dateString == Some("") ==> r == "Never"
    ensures dateString.Some? && dateString.value != "" ==> r == intl(dateString.value)
  {
    if dateString.None? || dateString.value == "" then "Never" else intl(dateString.value)
  }

  /** The only lead never contacted is shown as "Never" whatever the formatter. */
  lemma NeverContactedLead(intl: string -> string)
    ensures FormatDate(LeadsData[4].lastContacted, intl) == "Never"
  {
  }
}
