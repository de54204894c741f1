/**
 * The marketing-leads admin table: assigning an executive to one lead by id
 * (a non-mutating map over the list), and the executive label with its colour.
 */
module MarketingLeads {
  import opened Common

  const NotAssigned := "Not Assigned"

  /** A marketing lead; only the fields the assignment and the label read are kept. */
  datatype Lead = Lead(id: string, executive: Option<string>, executiveId: Option<string>, lead: Option<string>)

  /** An executive as listed in the selector: the option's value is the name, its data attribute the id. */
  datatype Executive = Executive(id: string, fullname: string, team: string)

  /** `prev.map(...)`: every lead with the id takes the executive, every other lead is kept. */
  function AssignExecutive(leads: seq<Lead>, leadId: string, name: string, execId: Option<string>): (r: seq<Lead>)
    ensures |r| == |leads|
    ensures forall i :: 0 <= i < |leads| && leads[i].id == leadId ==>
              r[i] == leads[i].(executive := Some(name), executiveId := execId)
    ensures forall i :: 0 <= i < |leads| && leads[i].id != leadId ==> r[i] == leads[i]
  {
    seq(|leads|, i requires 0 <= i < |leads| =>
      if leads[i].id == leadId then leads[i].(executive := Some(name), executiveId := execId) else leads[i])
  }

  /** Assigning the same executive twice gives the same list as assigning once. */
  lemma AssignIdempotent(leads: seq<Lead>, leadId: string, name: string, execId: Option<string>)
    ensures AssignExecutive(AssignExecutive(leads, leadId, name, execId), leadId, name, execId)
            == AssignExecutive(leads, leadId, name, execId)
  {
    var once := AssignExecutive(leads, leadId, name, execId);
    var twice := AssignExecutive(once, leadId, name, execId);
    assert forall i :: 0 <= i < |leads| ==> once[i].id == leads[i].id;
    forall i | 0 <= i < |leads| ensures twice[i] == once[i] {
    }
  }

  /** The label column: the executive, else the lead, else "Not Assigned". */
  function Label(l: Lead): (text: string)
    ensures Truthy(l.executive) ==> text == l.executive.value
    ensures !Truthy(l.executive) && Truthy(l.lead) ==> text == l.lead.value
    ensures !Truthy(l.executive) && !Truthy(l.lead) ==> text == NotAssigned
  {
    OrElse(l.executive, OrElse(l.lead, NotAssigned))
  }

  /** The label is green when an executive or a lead is set, red otherwise. */
  predicate Green(l: Lead) {
    Truthy(l.executive) || Truthy(l.lead)
  }

  /**
   * Green exactly when the label is not the fallback text, provided no name
   * shown in the column is itself "Not Assigned".
   */
  lemma GreenIffAssigned(l: Lead)
    requires l.executive != Some(NotAssigned) && l.lead != Some(NotAssigned)
    ensures Green(l) <==> Label(l) != NotAssigned
  {
  }

  /** A red label always reads "Not Assigned". */
  lemma RedMeansNotAssigned(l: Lead)
    ensures !Green(l) ==> Label(l) == NotAssigned
  {
  }

  /** After a successful assignment the lead's label shows the chosen executive. */
  lemma AssignedLabel(leads: seq<Lead>, leadId: string, name: string, execId: Option<string>, i: nat)
    requires i < |leads| && leads[i].id == leadId && name != ""
    ensures Label(AssignExecutive(leads, leadId, name, execId)[i]) == name
    ensures Green(AssignExecutive(leads, leadId, name, execId)[i])
  {
  }

  /** An assignment touches no other lead: ids, labels and colours elsewhere stay as they were. */
  lemma AssignLeavesOthers(leads: seq<Lead>, leadId: string, name: string, execId: Option<string>, i: nat)
    requires i < |leads| && leads[i].id != leadId
    ensures |AssignExecutive(leads, leadId, name, execId)| == |leads|
    ensures forall k :: 0 <= k < |leads| ==> AssignExecutive(leads, leadId, name, execId)[k].id == leads[k].id
    ensures Label(AssignExecutive(leads, leadId, name, execId)[i]) == Label(leads[i])
    ensures Green(AssignExecutive(leads, leadId, name, execId)[i]) == Green(leads[i])
  {
  }

  /** The reply to the update: the `success` flag of the body, or a thrown error. */
  datatype UpdateReply = Replied(success: bool) | Threw

  /** The toasts of this screen: the assignment's outcome and the two failed fetches. */
  datatype Notice = Assigned | AssignFailed | LeadsFetchFailed | ExecutivesFetchFailed

  class LeadsScreen {
    var allLeads: seq<Lead>
    var executives: seq<Executive>
    var loading: bool

    constructor ()
      ensures allLeads == [] && executives == [] && loading
    {
      allLeads := [];
      executives := [];
      loading := true;
    }

    /**
     * The leads fetch: the list on success; on failure the old list and the
     * "Failed to fetch marketing leads" toast. Loading ends either way.
     */
    method FetchAllMarketingLeads(response: Response<seq<Lead>>) returns (notice: Option<Notice>)
      modifies this`allLeads, this`loading
      ensures !loading
      ensures response.Ok? ==> allLeads == response.data && notice == None
      ensures response.Failure? ==> allLeads == old(allLeads) && notice == Some(LeadsFetchFailed)
    {
      loading := true;
      if response.Ok? {
        allLeads := response.data;
        notice := None;
      } else {
        notice := Some(LeadsFetchFailed);
      }
      loading := false;
    }

    /** The executives on success; on failure the old list and the "Failed to fetch executives" toast. */
    method FetchAllExecutives(response: Response<seq<Executive>>) returns (notice: Option<Notice>)
      modifies this`executives
      ensures response.Ok? ==> executives == response.data && notice == None
      ensures response.Failure? ==> executives == old(executives) && notice == Some(ExecutivesFetchFailed)
    {
      if response.Ok? {
        executives := response.data;
        notice := None;
      } else {
        notice := Some(ExecutivesFetchFailed);
      }
    }

    /**
     * Choosing option `option` of a lead's selector: option 0 is the empty
     * "Select Executive" entry, option `k` the `k`-th executive. An empty name
     * sends nothing; otherwise the list changes only on a reply whose
     * `success` flag is set.
     */
    method ExecutiveChange(leadId: string, option: nat, reply: UpdateReply) returns (sent: bool, notice: Option<Notice>)
      requires option <= |executives|
      modifies this`allLeads
      ensures sent <==> option > 0 && executives[option - 1].fullname != ""
      ensures !sent ==> allLeads == old(allLeads) && notice == None
      ensures sent && reply == Replied(true) ==>
                allLeads == AssignExecutive(old(allLeads), leadId, executives[option - 1].fullname,
                                            Some(executives[option - 1].id))
                && notice == Some(Assigned)
      ensures sent && reply == Replied(false) ==> allLeads == old(allLeads) && notice == None
      ensures sent && reply == Threw ==> allLeads == old(allLeads) && notice == Some(AssignFailed)
    {
      var name := if option == 0 then "" else executives[option - 1].fullname;
      var execId := if option == 0 then None else Some(executives[option - 1].id);
      if name == "" {
        return false, None;
      }
      sent := true;
      match reply {
        case Replied(success) =>
          if success {
            allLeads := AssignExecutive(allLeads, leadId, name, execId);
            notice := Some(Assigned);
          } else {
            notice := None;
          }
        case Threw =>
          notice := Some(AssignFailed);
      }
    }
  }
}
