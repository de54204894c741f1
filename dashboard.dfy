/**
 * The student dashboard's rules: the certificate application (eligible two
 * calendar months after enrolment, two confirmations, a title-cased name),
 * the enrolled and active counters, the course cards with their due amount
 * or their actions, and the certificate row.
 */
module Dashboard {
  import opened Common
  import opened Calendar
  import opened EnrolledCourses
  import Learning
  import Sidebar

  const WaitMonths := 2
  const DefaultCategory := "Course"
  const AppliedText := "Certificate Apply successfully!"
  const ApplyFailedText := "Failed to apply, or you have already applied."

  // ---------------------------------------------------------------------------
  // Title-casing: lower-case the name, split at spaces, upper-case the first
  // character of every word, join with spaces.

  /** `word.charAt(0).toUpperCase() + word.slice(1)`. */
  function Capitalize(w: string): (r: string)
    ensures |r| == |w|
    ensures w != [] ==> r[0] == UpperChar(w[0]) && r[1..] == w[1..]
  {
    if w == [] then [] else [UpperChar(w[0])] + w[1..]
  }

  function CapitalizeAll(ws: seq<string>): (r: seq<string>)
    ensures |r| == |ws|
    ensures forall i :: 0 <= i < |ws| ==> r[i] == Capitalize(ws[i])
  {
    if ws == [] then [] else [Capitalize(ws[0])] + CapitalizeAll(ws[1..])
  }

  function TitleCase(name: string): string {
    Join(CapitalizeAll(Split(Lower(name))))
  }

  /**
   * The same transformation one character at a time: a character is
   * upper-cased exactly when it starts a word.
   */
  function Walk(t: string, atStart: bool): (r: string)
    ensures |r| == |t|
    ensures forall i :: 0 <= i < |t| ==>
              r[i] == if (i == 0 && atStart) || (0 < i && t[i - 1] == ' ') then UpperChar(t[i]) else t[i]
  {
    if t == [] then []
    else if t[0] == ' ' then
      assert UpperChar(' ') == ' ';
      [' '] + Walk(t[1..], true)
    else [if atStart then UpperChar(t[0]) else t[0]] + Walk(t[1..], false)
  }

  /** The words with the first one capitalized only when `first` holds. */
  function CapitalizeRest(ws: seq<string>, first: bool): seq<string>
    requires |ws| >= 1
  {
    [if first then Capitalize(ws[0]) else ws[0]] + CapitalizeAll(ws[1..])
  }

  lemma JoinHead(c: char, w: string, tail: seq<string>)
    ensures Join([[c] + w] + tail) == [c] + Join([w] + tail)
  {
    if tail != [] {
      assert ([[c] + w] + tail)[1..] == tail;
      assert ([w] + tail)[1..] == tail;
    }
  }

  lemma {:induction false} WalkJoins(t: string, first: bool)
    ensures Join(CapitalizeRest(Split(t), first)) == Walk(t, first)
  {
    if t == [] {
    } else {
      var rest := Split(t[1..]);
      if t[0] == ' ' {
        WalkJoins(t[1..], true);
        assert CapitalizeRest(rest, true) == CapitalizeAll(rest);
        assert CapitalizeRest(Split(t), first) == [""] + CapitalizeRest(rest, true);
      } else {
        WalkJoins(t[1..], false);
        var c := if first then UpperChar(t[0]) else t[0];
        assert CapitalizeRest(Split(t), first) == [[c] + rest[0]] + CapitalizeAll(rest[1..]);
        JoinHead(c, rest[0], CapitalizeAll(rest[1..]));
        assert [rest[0]] + CapitalizeAll(rest[1..]) == CapitalizeRest(rest, false);
      }
    }
  }

  /** Title-casing is the character walk over the lower-cased name. */
  lemma TitleCaseIsWalk(name: string)
    ensures TitleCase(name) == Walk(Lower(name), true)
  {
    var ws := Split(Lower(name));
    WalkJoins(Lower(name), true);
    assert CapitalizeRest(ws, true) == CapitalizeAll(ws);
  }

  /**
   * Every character is lower-cased, except the first one of each word
   * (the first of the name, or one after a space), which is upper-cased.
   */
  lemma TitleCaseChars(name: string)
    ensures |TitleCase(name)| == |name|
    ensures forall i :: 0 <= i < |name| ==>
              TitleCase(name)[i] == if i == 0 || name[i - 1] == ' ' then UpperChar(LowerChar(name[i])) else LowerChar(name[i])
  {
    TitleCaseIsWalk(name);
    var t := Lower(name);
    forall i | 0 <= i < |name|
      ensures TitleCase(name)[i] == if i == 0 || name[i - 1] == ' ' then UpperChar(LowerChar(name[i])) else LowerChar(name[i])
    {
      assert TitleCase(name)[i] == Walk(t, true)[i];
      if i > 0 {
        CaseFacts(name[i - 1]);
        assert (t[i - 1] == ' ') == (name[i - 1] == ' ');
      }
    }
  }

  lemma CapitalizeSpaceFree(ws: seq<string>)
    requires forall i, j :: 0 <= i < |ws| && 0 <= j < |ws[i]| ==> ws[i][j] != ' '
    ensures forall i, j :: 0 <= i < |ws| && 0 <= j < |CapitalizeAll(ws)[i]| ==> CapitalizeAll(ws)[i][j] != ' '
  {
    forall i, j | 0 <= i < |ws| && 0 <= j < |CapitalizeAll(ws)[i]| ensures CapitalizeAll(ws)[i][j] != ' ' {
      if j == 0 {
        CaseFacts(ws[i][0]);
      } else {
        assert CapitalizeAll(ws)[i][j] == ws[i][j];
      }
    }
  }

  /** The words of the result are the capitalized words of the lower-cased name; so the word count is kept. */
  lemma TitleCaseWords(name: string)
    ensures Split(TitleCase(name)) == CapitalizeAll(Split(Lower(name)))
    ensures |Split(TitleCase(name))| == |Split(name)|
  {
    var ws := Split(Lower(name));
    CapitalizeSpaceFree(ws);
    SplitJoin(CapitalizeAll(ws));
    SplitLength(Lower(name));
    SplitLength(name);
    forall i | 0 <= i < |name| ensures (name[i] == ' ') == (Lower(name)[i] == ' ') {
      CaseFacts(name[i]);
    }
    SameSpaces(name, Lower(name));
  }

  /** Title-casing a title-cased name changes nothing. */
  lemma TitleCaseIdempotent(name: string)
    ensures TitleCase(TitleCase(name)) == TitleCase(name)
  {
    var r := TitleCase(name);
    TitleCaseChars(name);
    TitleCaseChars(r);
    forall i | 0 <= i < |name| ensures (r[i] == ' ') == (name[i] == ' ') {
      CaseFacts(name[i]);
      CaseFacts(LowerChar(name[i]));
      if i == 0 || name[i - 1] == ' ' {
        assert r[i] == UpperChar(LowerChar(name[i]));
      } else {
        assert r[i] == LowerChar(name[i]);
      }
    }
    forall i | 0 <= i < |r| ensures TitleCase(r)[i] == r[i] {
      CaseFacts(name[i]);
      var start := i == 0 || name[i - 1] == ' ';
      assert start == (i == 0 || r[i - 1] == ' ');
      if start {
        assert r[i] == UpperChar(LowerChar(name[i]));
        assert TitleCase(r)[i] == UpperChar(LowerChar(r[i]));
      } else {
        assert r[i] == LowerChar(name[i]);
        assert TitleCase(r)[i] == LowerChar(r[i]);
      }
    }
  }

  // ---------------------------------------------------------------------------
  // Certificate eligibility and application

  /** `eligibleDate.setMonth(createdAt.getMonth() + 2)`, keeping the time of day. */
  function EligibleDate(createdAt: Instant): (e: Instant)
    requires ValidInstant(createdAt)
    ensures ValidInstant(e)
    ensures e.day == AddMonths(createdAt.day, WaitMonths) && e.millis == createdAt.millis
  {
    Instant(AddMonths(createdAt.day, WaitMonths), createdAt.millis)
  }

  /** The application is refused while `now` is before the eligible date. */
  predicate Refused(createdAt: Instant, now: Instant)
    requires ValidInstant(createdAt)
  {
    Before(now, EligibleDate(createdAt))
  }

  /**
   * The waiting period in calendar months: refused in the month of
   * enrolment and the next one, accepted from the fourth month on.
   */
  lemma RefusalWindow(createdAt: Instant, now: Instant)
    requires ValidInstant(createdAt) && ValidInstant(now)
    ensures MonthOrd(MonthOf(now.day)) < MonthOrd(MonthOf(createdAt.day)) + WaitMonths ==> Refused(createdAt, now)
    ensures MonthOrd(MonthOf(now.day)) >= MonthOrd(MonthOf(createdAt.day)) + WaitMonths + 2 ==> !Refused(createdAt, now)
    ensures !Refused(createdAt, now) ==> MonthOrd(MonthOf(now.day)) >= MonthOrd(MonthOf(createdAt.day)) + WaitMonths
  {
    var e := EligibleDate(createdAt);
    assert MonthOrd(MonthOf(createdAt.day)) + WaitMonths <= MonthOrd(MonthOf(e.day)) <= MonthOrd(MonthOf(createdAt.day)) + WaitMonths + 1;
  }

  /** Once accepted, an application stays acceptable at every later instant. */
  lemma RefusalMonotone(createdAt: Instant, now: Instant, later: Instant)
    requires ValidInstant(createdAt)
    requires !Refused(createdAt, now) && !Before(later, now)
    ensures !Refused(createdAt, later)
  {
  }

  datatype CertificateRequest = CertificateRequest(name: string, email: string, domain: Option<string>)

  /** How an application ends: refused as too early, cancelled at a confirmation, or posted. */
  datatype Application =
    | TooEarly(eligibleFrom: Instant)
    | Cancelled
    | Applied(request: CertificateRequest)
    | ApplyFailed(request: CertificateRequest)

  /**
   * `handleSubmit`: `confirmComplete` and `confirmApply` are the answers to
   * the two confirmation dialogs, `posted` whether the POST succeeded.
   */
  function Apply(item: Enrollment, now: Instant, confirmComplete: bool, confirmApply: bool, posted: bool): (a: Application)
    requires ValidInstant(item.createdAt)
    ensures a.TooEarly? <==> Refused(item.createdAt, now)
    ensures a.TooEarly? ==> a.eligibleFrom == EligibleDate(item.createdAt)
    ensures a.Cancelled? <==> !Refused(item.createdAt, now) && !(confirmComplete && confirmApply)
    ensures (a.Applied? || a.ApplyFailed?) <==> !Refused(item.createdAt, now) && confirmComplete && confirmApply
    ensures a.Applied? <==> !Refused(item.createdAt, now) && confirmComplete && confirmApply && posted
    ensures a.Applied? || a.ApplyFailed? ==>
              a.request == CertificateRequest(TitleCase(item.fullname), item.email, item.domain.title)
  {
    if Refused(item.createdAt, now) then TooEarly(EligibleDate(item.createdAt))
    else if !confirmComplete || !confirmApply then Cancelled
    else
      var request := CertificateRequest(TitleCase(item.fullname), item.email, item.domain.title);
      if posted then Applied(request) else ApplyFailed(request)
  }

  /** The message shown for an outcome; a cancelled application shows none. */
  datatype Notice = ApplyAfter(date: Day) | Success(text: string) | Error(text: string)

  function NoticeOf(a: Application): (n: Option<Notice>)
    ensures n.None? <==> a.Cancelled?
    ensures a.TooEarly? ==> n == Some(ApplyAfter(a.eligibleFrom.day))
    ensures a.Applied? ==> n == Some(Success(AppliedText))
    ensures a.ApplyFailed? ==> n == Some(Error(ApplyFailedText))
  {
    match a
    case TooEarly(e) => Some(ApplyAfter(e.day))
    case Cancelled => None
    case Applied(_) => Some(Success(AppliedText))
    case ApplyFailed(_) => Some(Error(ApplyFailedText))
  }

  /**
   * What the student sees after pressing "Apply": nothing only when eligible
   * and a confirmation is declined; the success toast exactly when eligible,
   * both confirmed and the POST succeeded; the failure toast when it did not;
   * otherwise the "apply after" toast, naming a day after enrolment that
   * falls at most three calendar months after the enrolment month.
   */
  lemma ApplyOutcomeNotice(item: Enrollment, now: Instant, confirmComplete: bool, confirmApply: bool, posted: bool)
    requires ValidInstant(item.createdAt) && ValidInstant(now)
    ensures NoticeOf(Apply(item, now, confirmComplete, confirmApply, posted)).None? <==>
              !Refused(item.createdAt, now) && !(confirmComplete && confirmApply)
    ensures NoticeOf(Apply(item, now, confirmComplete, confirmApply, posted)) == Some(Success(AppliedText)) <==>
              !Refused(item.createdAt, now) && confirmComplete && confirmApply && posted
    ensures NoticeOf(Apply(item, now, confirmComplete, confirmApply, posted)) == Some(Error(ApplyFailedText)) <==>
              !Refused(item.createdAt, now) && confirmComplete && confirmApply && !posted
    ensures NoticeOf(Apply(item, now, confirmComplete, confirmApply, posted)).Some?
            && NoticeOf(Apply(item, now, confirmComplete, confirmApply, posted)).value.ApplyAfter? ==>
              && NoticeOf(Apply(item, now, confirmComplete, confirmApply, posted)).value.date
                 == AddMonths(item.createdAt.day, WaitMonths)
              && DayLt(item.createdAt.day, NoticeOf(Apply(item, now, confirmComplete, confirmApply, posted)).value.date)
              && MonthOrd(MonthOf(now.day)) < MonthOrd(MonthOf(item.createdAt.day)) + WaitMonths + 2
  {
    RefusalWindow(item.createdAt, now);
    AddMonthsLater(item.createdAt.day, WaitMonths);
  }

  // ---------------------------------------------------------------------------
  // Counters and course cards

  /** The "Active" counter: enrolments with status "fullPaid". */
  function ActiveCount(items: seq<Enrollment>): (n: nat)
    ensures n <= |items|
    ensures n == |items| <==> forall i :: 0 <= i < |items| ==> items[i].status == FullPaid
    ensures n == 0 <==> forall i :: 0 <= i < |items| ==> items[i].status != FullPaid
  {
    if items == [] then 0
    else
      var rest := ActiveCount(items[1..]);
      assert forall i :: 1 <= i < |items| ==> items[i] == items[1..][i - 1];
      (if items[0].status == FullPaid then 1 else 0) + rest
  }

  /** What a course card shows. */
  datatype Card = Card(
    pendingBadge: bool,
    category: string,
    sessions: nat,
    actions: Option<Learning.NavState>,
    due: Option<int>)

  /**
   * A paid-up course offers "Start learning" (opening the player on its
   * sessions) and "Certificate"; any other shows the badge and the amount due.
   */
  function CardOf(item: Enrollment): (c: Card)
    ensures c.pendingBadge <==> item.status != FullPaid
    ensures c.actions.Some? <==> item.status == FullPaid
    ensures c.due.Some? <==> item.status != FullPaid
    ensures c.due.Some? ==> c.due.value == item.programPrice - item.paidAmount
    ensures c.actions.Some? ==>
              c.actions.value.courseTitle == item.domain.title
              && c.actions.value.sessions == SessionList(item.domain.session)
              && c.actions.value.startIndex.None?
    ensures c.sessions == SessionCount(item.domain.session)
  {
    var paid := item.status == FullPaid;
    Card(!paid,
         OrElse(item.domain.category, DefaultCategory),
         SessionCount(item.domain.session),
         if paid then Some(Learning.NavState(item.domain.title, SessionList(item.domain.session), None)) else None,
         if paid then None else Some(item.programPrice - item.paidAmount))
  }

  function Cards(items: seq<Enrollment>): (cs: seq<Card>)
    ensures |cs| == |items|
    ensures forall i :: 0 <= i < |items| ==> cs[i] == CardOf(items[i])
  {
    seq(|items|, i requires 0 <= i < |items| => CardOf(items[i]))
  }

  function CountActions(cs: seq<Card>): nat {
    if cs == [] then 0 else (if cs[0].actions.Some? then 1 else 0) + CountActions(cs[1..])
  }

  /** The cards offering actions are as many as the "Active" counter says; the rest show a due amount. */
  lemma {:induction false} CardsMatchCounters(items: seq<Enrollment>)
    ensures CountActions(Cards(items)) == ActiveCount(items)
    ensures |items| - ActiveCount(items) == |Cards(items)| - CountActions(Cards(items))
  {
    if items != [] {
      CardsMatchCounters(items[1..]);
      assert Cards(items)[1..] == Cards(items[1..]);
    }
  }

  // ---------------------------------------------------------------------------
  // Certificate row

  datatype Certificate = Certificate(name: string, email: string, domain: string, delivered: bool)

  datatype CertificateRow = NoApplications | Listed(domain: string, issued: bool, viewEnabled: bool)

  /** "Issued" and an enabled "View" exactly for a delivered certificate, "Processing" otherwise. */
  function CertificateRowOf(certificate: Option<Certificate>): (r: CertificateRow)
    ensures r.NoApplications? <==> certificate.None?
    ensures r.Listed? ==> r.domain == certificate.value.domain
    ensures r.Listed? ==> (r.viewEnabled <==> certificate.value.delivered) && r.issued == r.viewEnabled
  {
    if certificate.None? then NoApplications
    else Listed(certificate.value.domain, certificate.value.delivered, certificate.value.delivered)
  }

  // ---------------------------------------------------------------------------
  // Screen state

  class DashboardScreen {
    var enrollData: seq<Enrollment>
    var loading: bool
    var certificate: Option<Certificate>
    var selectedCertificate: Option<Certificate>
    var userData: Option<User>
    var componentsAccess: Sidebar.Flags

    constructor ()
      ensures enrollData == [] && loading
      ensures certificate == None && selectedCertificate == None && userData == None
      ensures componentsAccess == Sidebar.DefaultFlags
    {
      enrollData := [];
      loading := true;
      certificate := None;
      selectedCertificate := None;
      userData := None;
      componentsAccess := Sidebar.DefaultFlags;
    }

    /** The enrolment fetch: the list on success, the old one on failure, loading over either way. */
    method FetchEnrollData(response: Response<seq<Enrollment>>)
      modifies this`enrollData, this`loading
      ensures !loading
      ensures response.Ok? ==> enrollData == response.data
      ensures response.Failure? ==> enrollData == old(enrollData)
    {
      loading := true;
      if response.Ok? {
        enrollData := response.data;
      }
      loading := false;
    }

    method FetchCertificate(response: Response<Option<Certificate>>)
      modifies this`certificate
      ensures response.Ok? ==> certificate == response.data
      ensures response.Failure? ==> certificate == old(certificate)
    {
      if response.Ok? {
        certificate := response.data;
      }
    }

    method FetchUserData(userId: Option<string>, response: Response<User>)
      modifies this`userData
      ensures Truthy(userId) && response.Ok? ==> userData == Some(response.data)
      ensures !Truthy(userId) || response.Failure? ==> userData == old(userData)
    {
      if Truthy(userId) && response.Ok? {
        userData := Some(response.data);
      }
    }

    method FetchComponentsAccess(userId: Option<string>, response: Response<Sidebar.Flags>)
      modifies this`componentsAccess
      ensures Truthy(userId) && response.Ok? ==> componentsAccess == response.data
      ensures !Truthy(userId) || response.Failure? ==> componentsAccess == old(componentsAccess)
    {
      if Truthy(userId) && response.Ok? {
        componentsAccess := response.data;
      }
    }

    /** An application; after a successful POST the certificate is fetched again (`refetch`). */
    method SubmitApplication(item: Enrollment, now: Instant, confirmComplete: bool, confirmApply: bool,
                             posted: bool, refetch: Response<Option<Certificate>>)
      returns (a: Application)
      requires ValidInstant(item.createdAt)
      modifies this`certificate
      ensures a == Apply(item, now, confirmComplete, confirmApply, posted)
      ensures a.Applied? && refetch.Ok? ==> certificate == refetch.data
      ensures !(a.Applied? && refetch.Ok?) ==> certificate == old(certificate)
    {
      a := Apply(item, now, confirmComplete, confirmApply, posted);
      if a.Applied? {
        FetchCertificate(refetch);
      }
    }

    /** "View" opens the certificate modal; it is clickable only for a delivered certificate. */
    method View()
      requires CertificateRowOf(certificate).Listed? && CertificateRowOf(certificate).viewEnabled
      modifies this`selectedCertificate
      ensures selectedCertificate == certificate && selectedCertificate.value.delivered
    {
      selectedCertificate := certificate;
    }

    method CloseModal()
      modifies this`selectedCertificate
      ensures selectedCertificate == None
    {
      selectedCertificate := None;
    }
  }
}
