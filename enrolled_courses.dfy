/**
 * The enrolled-courses screen: the first enrolment's course is selected once
 * the list arrives, clicking a course selects it (closing the sidebar on
 * narrow windows), and the selected course's sessions are listed as numbered
 * rows that open the player at their index.
 */
module EnrolledCourses {
  import opened Common
  import opened Calendar
  import Learning

  /** A course (`domain` of an enrolment); `session` is `None` when the object is missing. */
  datatype Course = Course(
    title: Option<string>,
    category: Option<string>,
    description: Option<string>,
    session: Option<seq<Learning.Session>>)

  /** An enrolment record as the student screens read it. */
  datatype Enrollment = Enrollment(
    fullname: string,
    email: string,
    domain: Course,
    status: string,
    programPrice: int,
    paidAmount: int,
    createdAt: Instant)

  const LargeScreenWidth := 1024
  const DefaultBadge := "Course"

  /** The number of session keys, 0 when the sessions object is missing. */
  function SessionCount(session: Option<seq<Learning.Session>>): (n: nat)
    ensures session.None? ==> n == 0
    ensures session.Some? ==> n == |session.value|
  {
    if session.Some? then |session.value| else 0
  }

  /** The sessions handed to the player: a missing object reads as no sessions. */
  function SessionList(session: Option<seq<Learning.Session>>): (ss: seq<Learning.Session>)
    ensures |ss| == SessionCount(session)
  {
    if session.Some? then session.value else []
  }

  /** The router state of "Start learning"; the start index defaults to 0. */
  function StartLearning(title: Option<string>, session: Option<seq<Learning.Session>>, startIndex: int := 0): (nav: Learning.NavState)
    ensures nav.courseTitle == title && nav.sessions == SessionList(session)
    ensures nav.startIndex == Some(startIndex)
  {
    Learning.NavState(title, SessionList(session), Some(startIndex))
  }

  /** The badge over the course title: its first space-separated word, or "Course". */
  function TitleBadge(title: Option<string>): (badge: string)
    ensures badge != ""
    ensures badge != DefaultBadge ==>
              title.Some? && |badge| <= |title.value| && badge == title.value[..|badge|] && ' ' !in badge
              && (|badge| == |title.value| || title.value[|badge|] == ' ')
    ensures title.None? ==> badge == DefaultBadge
    ensures title.Some? && (title.value == [] || title.value[0] == ' ') ==> badge == DefaultBadge
    ensures title.Some? && title.value != [] && title.value[0] != ' ' ==>
              |badge| <= |title.value| && badge == title.value[..|badge|] && ' ' !in badge
              && (|badge| == |title.value| || title.value[|badge|] == ' ')
  {
    if title.None? then DefaultBadge
    else
      SplitFirst(title.value);
      var first := Split(title.value)[0];
      assert title.value != [] && title.value[0] == ' ' ==> Split(title.value) == [""] + Split(title.value[1..]);
      if first != "" then first else DefaultBadge
  }

  /** `String(index + 1).padStart(2, "0")`: the row number in at least two digits. */
  function RowLabel(index: nat): (numeral: string)
    ensures |numeral| >= 2
    ensures forall i :: 0 <= i < |numeral| ==> '0' <= numeral[i] <= '9'
    ensures DigitsValue(numeral) == index + 1
    ensures index + 1 < 10 ==> numeral == "0" + Decimal(index + 1)
    ensures index + 1 >= 10 ==> numeral == Decimal(index + 1)
  {
    var d := Decimal(index + 1);
    DecimalValue(index + 1);
    DecimalLength(index + 1);
    var padded := PadStart(d, 2, '0');
    if |d| == 1 then
      assert padded == "0" + d;
      LeadingZeroValue(d);
      padded
    else padded
  }

  /** Different rows get different labels. */
  lemma RowLabelsDistinct(i: nat, j: nat)
    requires i != j
    ensures RowLabel(i) != RowLabel(j)
  {
  }

  /**
   * The "N sessions" figure on a course, the rows listed for it and the
   * sessions handed to the player all agree.
   */
  lemma CountMatchesRows(course: Course)
    ensures |Rows(course)| == SessionCount(course.session)
    ensures |StartLearning(course.title, course.session).sessions| == SessionCount(course.session)
    ensures course.session.Some? ==> SessionCount(course.session) == |course.session.value|
    ensures course.session.None? ==> Rows(course) == []
  {
  }

  /** One line of the session table: number, title (the key when the title is empty), play target. */
  datatype Row = Row(number: string, title: string, play: Learning.NavState)

  function Rows(course: Course): (rows: seq<Row>)
    ensures |rows| == SessionCount(course.session)
    ensures forall i :: 0 <= i < |rows| ==>
              rows[i] == Row(RowLabel(i),
                             OrElse(course.session.value[i].title, course.session.value[i].key),
                             StartLearning(course.title, course.session, i))
  {
    if course.session.None? then []
    else
      var ss := course.session.value;
      seq(|ss|, i requires 0 <= i < |ss| =>
        Row(RowLabel(i), OrElse(ss[i].title, ss[i].key), StartLearning(course.title, course.session, i)))
  }

  /**
   * Row `i` is numbered `i + 1` and its play button names session `i`: a
   * player that honours the start index opens at that row's session.
   */
  lemma RowsOpenTheirSession(course: Course, i: nat)
    requires i < SessionCount(course.session)
    ensures DigitsValue(Rows(course)[i].number) == i + 1
    ensures Learning.ResumeIndex(Rows(course)[i].play) == i
    ensures Rows(course)[i].play.sessions[i] == course.session.value[i]
  {
  }

  /**
   * Row `i`'s play button opening the player as written: the player reads
   * only the title and the sessions, so it shows session 0 whatever the row.
   */
  method OpenRowAsWritten(course: Course, i: nat) returns (player: Learning.SessionPlayer)
    requires i < SessionCount(course.session)
    ensures fresh(player)
    ensures player.index == 0 && player.selected == Some(course.session.value[0])
    ensures i > 0 ==> player.index != Rows(course)[i].play.startIndex.value
  {
    player := new Learning.SessionPlayer(Rows(course)[i].play);
  }

  /** The same click with a player that honours the start index: it shows session `i`. */
  method OpenRow(course: Course, i: nat) returns (player: Learning.SessionPlayer)
    requires i < SessionCount(course.session)
    ensures fresh(player) && player.Valid()
    ensures player.index == i && player.selected == Some(course.session.value[i])
  {
    RowsOpenTheirSession(course, i);
    player := new Learning.SessionPlayer.Resume(Rows(course)[i].play);
  }

  class CoursesScreen {
    var enrollData: seq<Enrollment>
    var selectedCourse: Option<Course>
    var userData: Option<User>
    var loading: bool
    var isSidebarOpen: bool

    constructor ()
      ensures enrollData == [] && selectedCourse == None && userData == None
      ensures loading && isSidebarOpen
    {
      enrollData := [];
      selectedCourse := None;
      userData := None;
      loading := true;
      isSidebarOpen := true;
    }

    /**
     * `fetchEnrollData` once the request settles: the list replaces the
     * enrolments and a non-empty one selects its first course; a failure
     * changes neither; loading ends either way.
     */
    method FetchEnrollData(response: Response<seq<Enrollment>>)
      modifies this`enrollData, this`selectedCourse, this`loading
      ensures !loading
      ensures response.Ok? ==> enrollData == response.data
      ensures response.Ok? && |response.data| > 0 ==> selectedCourse == Some(response.data[0].domain)
      ensures response.Ok? && |response.data| == 0 ==> selectedCourse == old(selectedCourse)
      ensures response.Failure? ==> enrollData == old(enrollData) && selectedCourse == old(selectedCourse)
    {
      loading := true;
      if response.Ok? {
        enrollData := response.data;
        if |response.data| > 0 {
          selectedCourse := Some(response.data[0].domain);
        }
      }
      loading := false;
    }

    /** `fetchUserData`: skipped without a stored user id; a failure keeps the old value. */
    method FetchUserData(userId: Option<string>, response: Response<User>)
      modifies this`userData
      ensures Truthy(userId) && response.Ok? ==> userData == Some(response.data)
      ensures !Truthy(userId) || response.Failure? ==> userData == old(userData)
    {
      if Truthy(userId) && response.Ok? {
        userData := Some(response.data);
      }
    }

    /** Clicking a course selects it; below 1024 pixels the sidebar also closes. */
    method CourseClick(course: Course, innerWidth: int)
      modifies this`selectedCourse, this`isSidebarOpen
      ensures selectedCourse == Some(course)
      ensures isSidebarOpen == (old(isSidebarOpen) && innerWidth >= LargeScreenWidth)
    {
      selectedCourse := Some(course);
      if innerWidth < LargeScreenWidth {
        isSidebarOpen := false;
      }
    }

    method ToggleSidebar()
      modifies this`isSidebarOpen
      ensures isSidebarOpen == !old(isSidebarOpen)
    {
      isSidebarOpen := !isSidebarOpen;
    }
  }
}
