/**
 * The session player: a current index over the course's ordered session
 * keys, the session shown for it, whether the video is playing, and the
 * progress figure and "Up Next" line derived from the index.
 */
module Learning {
  import opened Common

  /** One entry of the `sessions` object, with its key. */
  datatype Session = Session(key: string, title: Option<string>, description: Option<string>)

  /** The router state the player is opened with; a missing `sessions` object is the empty list. */
  datatype NavState = NavState(courseTitle: Option<string>, sessions: seq<Session>, startIndex: Option<int>)

  const LastSessionText := "This is the last session"

  /** `Math.round(((index + 1) / total) * 100)` on exact rationals: halves round up. */
  function ProgressPercent(index: int, total: int): (p: int)
    requires 0 <= index < total
    ensures 2 * p * total - total <= 200 * (index + 1) < 2 * p * total + total
  {
    (200 * (index + 1) + total) / (2 * total)
  }

  /** `${value}` in a template literal: a missing title prints as "undefined". */
  function TitleText(title: Option<string>): string {
    if title.Some? then title.value else "undefined"
  }

  lemma MulCancel(d: int, x: int, y: int)
    requires 0 < d && d * x < d * y
    ensures x < y
  {
  }

  lemma DivMonotone(a: int, b: int, d: int)
    requires 0 < d && a <= b
    ensures a / d <= b / d
  {
    assert d * (a / d) < d * (b / d + 1);
    MulCancel(d, a / d, b / d + 1);
  }

  lemma DivIs(a: int, d: int, q: int)
    requires 0 < d && d * q <= a < d * q + d
    ensures a / d == q
  {
    assert d * (a / d) < d * (q + 1);
    MulCancel(d, a / d, q + 1);
    assert d * q < d * (a / d + 1);
    MulCancel(d, q, a / d + 1);
  }

  /** Progress lies in 0..100, grows with the index and is 100 at the last session. */
  lemma ProgressFacts(index: int, later: int, total: int)
    requires 0 <= index <= later < total
    ensures 0 <= ProgressPercent(index, total) <= ProgressPercent(later, total) <= 100
    ensures ProgressPercent(total - 1, total) == 100
  {
    DivMonotone(200 * (index + 1) + total, 200 * (later + 1) + total, 2 * total);
    DivMonotone(200 * (later + 1) + total, 200 * total + total, 2 * total);
    DivIs(200 * total + total, 2 * total, 100);
  }

  class SessionPlayer {
    const courseTitle: Option<string>
    const sessions: seq<Session>
    var selected: Option<Session>
    var index: int
    var isPlaying: bool

    /** The index stays on a session, and the shown session is the one at the index. */
    ghost predicate Valid()
      reads this
    {
      && (|sessions| == 0 ==> index == 0 && selected == None)
      && (|sessions| > 0 ==> 0 <= index < |sessions| && selected == Some(sessions[index]))
    }

    /**
     * Mounting the player: the initial state and the first run of the effect
     * that selects the first session. Only `courseTitle` and `sessions` are
     * read from the router state, so playback opens at session 0.
     */
    constructor (nav: NavState)
      ensures Valid()
      ensures courseTitle == nav.courseTitle && sessions == nav.sessions
      ensures index == 0 && !isPlaying
      ensures selected == if |nav.sessions| > 0 then Some(nav.sessions[0]) else None
    {
      courseTitle := nav.courseTitle;
      sessions := nav.sessions;
      index := 0;
      isPlaying := false;
      selected := if |nav.sessions| > 0 then Some(nav.sessions[0]) else None;
    }

    /**
     * Opening the player at the session the router state names, falling back
     * to the first session when the start index is missing or out of range.
     */
    constructor Resume(nav: NavState)
      ensures Valid()
      ensures courseTitle == nav.courseTitle && sessions == nav.sessions && !isPlaying
      ensures index == ResumeIndex(nav)
      ensures nav.startIndex.Some? && 0 <= nav.startIndex.value < |nav.sessions| ==>
                index == nav.startIndex.value && selected == Some(nav.sessions[nav.startIndex.value])
    {
      courseTitle := nav.courseTitle;
      sessions := nav.sessions;
      var i := ResumeIndex(nav);
      index := i;
      isPlaying := false;
      selected := if |nav.sessions| > 0 then Some(nav.sessions[i]) else None;
    }

    /** Clicking a session shows it and starts playback. */
    method SessionClick(i: int)
      requires Valid() && 0 <= i < |sessions|
      modifies this
      ensures Valid()
      ensures index == i && selected == Some(sessions[i]) && isPlaying
    {
      selected := Some(sessions[i]);
      index := i;
      isPlaying := true;
    }

    /** One session back, unless already at the first. */
    method Previous()
      requires Valid()
      modifies this
      ensures Valid()
      ensures index == if old(index) > 0 then old(index) - 1 else old(index)
      ensures old(index) == 0 ==> selected == old(selected)
      ensures isPlaying == old(isPlaying)
    {
      if index > 0 {
        var newIndex := index - 1;
        selected := Some(sessions[newIndex]);
        index := newIndex;
      }
    }

    /** One session forward, unless already at the last. */
    method Next()
      requires Valid()
      modifies this
      ensures Valid()
      ensures index == if old(index) < |sessions| - 1 then old(index) + 1 else old(index)
      ensures old(index) >= |sessions| - 1 ==> selected == old(selected)
      ensures isPlaying == old(isPlaying)
    {
      if index < |sessions| - 1 {
        var newIndex := index + 1;
        selected := Some(sessions[newIndex]);
        index := newIndex;
      }
    }

    /** Choosing a session by index; the handler itself checks no bounds. */
    method SelectChange(i: int)
      requires Valid() && 0 <= i < |sessions|
      modifies this
      ensures Valid()
      ensures index == i && selected == Some(sessions[i])
      ensures isPlaying == old(isPlaying)
    {
      selected := Some(sessions[i]);
      index := i;
    }

    /** The play button over the thumbnail. */
    method Play()
      requires Valid()
      modifies this`isPlaying
      ensures Valid() && isPlaying
    {
      isPlaying := true;
    }

    /** The progress pill; rendered only once a session is selected. */
    function Progress(): (p: int)
      reads this
      requires Valid() && |sessions| > 0
      ensures 0 <= p <= 100
      ensures index == |sessions| - 1 ==> p == 100
    {
      ProgressFacts(index, |sessions| - 1, |sessions|);
      ProgressPercent(index, |sessions|)
    }

    /** The line under the thumbnail. */
    function UpNext(): (text: string)
      reads this
      requires Valid() && |sessions| > 0
      ensures (text == LastSessionText) <==> index == |sessions| - 1
      ensures index < |sessions| - 1 ==> text == "Up Next: " + TitleText(sessions[index + 1].title)
    {
      if index < |sessions| - 1 then
        var t := "Up Next: " + TitleText(sessions[index + 1].title);
        assert t[0] != LastSessionText[0];
        t
      else LastSessionText
    }
  }

  /** The start index the router state carries, when it names a session. */
  function ResumeIndex(nav: NavState): (i: int)
    ensures |nav.sessions| == 0 ==> i == 0
    ensures |nav.sessions| > 0 ==> 0 <= i < |nav.sessions|
  {
    if nav.startIndex.Some? && 0 <= nav.startIndex.value < |nav.sessions| then nav.startIndex.value else 0
  }
}
