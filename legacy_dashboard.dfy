/**
 * The older dashboard. It applies the same eligibility and title-casing
 * rules as the current one. It reports through alerts, does not fetch user
 * data or feature flags, and counts sessions without a fallback, so a course
 * without a sessions object cannot be rendered.
 */
module LegacyDashboard {
  import opened Common
  import opened Calendar
  import opened EnrolledCourses
  import Learning
  import Dashboard

  /** What a course card shows: the session count, and the actions or the amount due. */
  datatype LegacyCard = LegacyCard(sessions: nat, actions: Option<Learning.NavState>, due: Option<int>)

  /**
   * `Object.keys(item.domain.session).length` throws on a missing sessions
   * object, which aborts the render of the whole screen, not just one card;
   * the model marks the offending item `None`, and `LegacyCards` below
   * yields `None` for the whole list as soon as one item is `None`.
   */
  function LegacyCardOf(item: Enrollment): (c: Option<LegacyCard>)
    ensures c.None? <==> item.domain.session.None?
    ensures c.Some? ==> c.value.sessions == |item.domain.session.value|
    ensures c.Some? ==> (c.value.actions.Some? <==> item.status == FullPaid)
    ensures c.Some? ==> (c.value.due.Some? <==> item.status != FullPaid)
    ensures c.Some? && c.value.due.Some? ==> c.value.due.value == item.programPrice - item.paidAmount
  {
    if item.domain.session.None? then None
    else
      var paid := item.status == FullPaid;
      Some(LegacyCard(
        |item.domain.session.value|,
        if paid then Some(Learning.NavState(item.domain.title, item.domain.session.value, None)) else None,
        if paid then None else Some(item.programPrice - item.paidAmount)))
  }

  /**
   * The card list of the screen: it renders only when every enrolment has a
   * sessions object, and then holds one card per enrolment, in order.
   */
  function LegacyCards(items: seq<Enrollment>): (cs: Option<seq<LegacyCard>>)
    ensures cs.None? <==> exists i :: 0 <= i < |items| && items[i].domain.session.None?
    ensures cs.Some? ==> |cs.value| == |items|
    ensures cs.Some? ==> forall i :: 0 <= i < |items| ==> LegacyCardOf(items[i]) == Some(cs.value[i])
  {
    if items == [] then Some([])
    else
      var rest := LegacyCards(items[1..]);
      if LegacyCardOf(items[0]).None? || rest.None? then
        assert rest.None? ==> exists i :: 1 <= i < |items| && items[i].domain.session.None? by {
          if rest.None? {
            var j :| 0 <= j < |items[1..]| && items[1..][j].domain.session.None?;
            assert items[j + 1] == items[1..][j];
          }
        }
        None
      else
        Some([LegacyCardOf(items[0]).value] + rest.value)
  }

  /** Where both variants render a card, they show the same count, actions and amount. */
  lemma CardsAgree(item: Enrollment)
    requires item.domain.session.Some?
    ensures LegacyCardOf(item).Some?
    ensures LegacyCardOf(item).value.sessions == Dashboard.CardOf(item).sessions
    ensures LegacyCardOf(item).value.actions == Dashboard.CardOf(item).actions
    ensures LegacyCardOf(item).value.due == Dashboard.CardOf(item).due
  {
  }

  /** The status panel: the application's details, and "View Certificate" or "Processing". */
  datatype Panel = NoCertificate | Status(name: string, email: string, domain: string, viewCertificate: bool)

  function PanelOf(certificate: Option<Dashboard.Certificate>): (p: Panel)
    ensures p.NoCertificate? <==> certificate.None?
    ensures p.Status? ==> p.name == certificate.value.name && p.email == certificate.value.email
                          && p.domain == certificate.value.domain
    ensures p.Status? ==> (p.viewCertificate <==> certificate.value.delivered)
  {
    if certificate.None? then NoCertificate
    else
      var c := certificate.value;
      Status(c.name, c.email, c.domain, c.delivered)
  }

  /** The panel offers the certificate exactly when the current dashboard enables "View". */
  lemma PanelAgrees(certificate: Option<Dashboard.Certificate>)
    ensures PanelOf(certificate).Status? <==> Dashboard.CertificateRowOf(certificate).Listed?
    ensures PanelOf(certificate).Status? ==>
              PanelOf(certificate).viewCertificate == Dashboard.CertificateRowOf(certificate).viewEnabled
  {
  }

  class LegacyDashboardScreen {
    var enrollData: seq<Enrollment>
    var loading: bool
    var certificate: Option<Dashboard.Certificate>
    var selectedCertificate: Option<Dashboard.Certificate>

    constructor ()
      ensures enrollData == [] && loading && certificate == None && selectedCertificate == None
    {
      enrollData := [];
      loading := true;
      certificate := None;
      selectedCertificate := None;
    }

    method FetchEnrollData(response: Response<seq<Enrollment>>)
      modifies this`enrollData, this`loading
      ensures !loading
      ensures response.Ok? ==> enrollData == response.data
      ensures response.Failure? ==> enrollData == old(enrollData)
    {
      loading := true;
      if response.Ok? {
        enrollData := response.data;
      }
      loading := false;
    }

    method FetchCertificate(response: Response<Option<Dashboard.Certificate>>)
      modifies this`certificate
      ensures response.Ok? ==> certificate == response.data
      ensures response.Failure? ==> certificate == old(certificate)
    {
      if response.Ok? {
        certificate := response.data;
      }
    }

    /**
     * The older `handleSubmit`: the same decision as the current dashboard,
     * reported with an alert; a successful POST fetches the certificate again.
     */
    method SubmitApplication(item: Enrollment, now: Instant, confirmComplete: bool, confirmApply: bool,
                             posted: bool, refetch: Response<Option<Dashboard.Certificate>>)
      returns (a: Dashboard.Application, alert: Option<Dashboard.Notice>)
      requires ValidInstant(item.createdAt)
      modifies this`certificate
      ensures a == Dashboard.Apply(item, now, confirmComplete, confirmApply, posted)
      ensures alert == Dashboard.NoticeOf(a)
      ensures a.Applied? && refetch.Ok? ==> certificate == refetch.data
      ensures !(a.Applied? && refetch.Ok?) ==> certificate == old(certificate)
    {
      a := Dashboard.Apply(item, now, confirmComplete, confirmApply, posted);
      alert := Dashboard.NoticeOf(a);
      if a.Applied? {
        FetchCertificate(refetch);
      }
    }

    /** "View Certificate" exists only on the panel of a delivered certificate. */
    method ViewCertificate()
      requires PanelOf(certificate).Status? && PanelOf(certificate).viewCertificate
      modifies this`selectedCertificate
      ensures selectedCertificate == certificate && selectedCertificate.value.delivered
    {
      selectedCertificate := certificate;
    }
  }
}
