/** The client-side store of a user's lesson progress: the rows last fetched
    from the backend, a loading flag, the row written when a lesson's
    progress is recorded, and the per-course average shown in the learning
    section. Backend calls are parameters holding their outcome; the toasts
    the store raises are returned. Percentages are integers: the only value
    the application ever records is 100. */
module ProgressStore {
  import opened Outcomes

  datatype ProgressRow = ProgressRow(id: string, courseId: string, lessonId: string,
                                     completed: bool, progressPercentage: int)

  /** The record sent to the backend's upsert. */
  datatype ProgressRecord = ProgressRecord(userId: string, courseId: string, lessonId: string,
                                           progressPercentage: int, completed: bool)

  /** The record written for a lesson: it is completed exactly when its
      percentage has reached 100. */
  function RecordFor(userId: string, courseId: string, lessonId: string, percentage: int): (r: ProgressRecord)
    ensures r.userId == userId && r.courseId == courseId && r.lessonId == lessonId
    ensures r.progressPercentage == percentage
    ensures r.completed <==> percentage >= 100
  {
    ProgressRecord(userId, courseId, lessonId, percentage, percentage >= 100)
  }

  /** The rows of course `c`, in their order. */
  function CourseRows(rows: seq<ProgressRow>, c: string): (r: seq<ProgressRow>)
    ensures |r| <= |rows|
    ensures forall x :: x in r <==> x in rows && x.courseId == c
  {
    if rows == [] then []
    else if rows[0].courseId == c then [rows[0]] + CourseRows(rows[1..], c)
    else CourseRows(rows[1..], c)
  }

  /** The sum of the percentages of `rows`. */
  function Total(rows: seq<ProgressRow>): int {
    if rows == [] then 0 else rows[0].progressPercentage + Total(rows[1..])
  }

  /** `s / n` rounded to the nearest integer, halves rounded up, as
      `Math.round` does: the result is the integer `r` with
      `r - 1/2 <= s/n < r + 1/2`. */
  function RoundedMean(s: int, n: int): (r: int)
    requires n > 0
    ensures 2 * n * r - n <= 2 * s < 2 * n * r + n
  {
    var r := (2 * s + n) / (2 * n);
    assert 2 * n * r <= 2 * s + n < 2 * n * r + 2 * n;
    r
  }

  /** The progress of course `c` shown to the user: 0 when no row belongs to
      the course, otherwise the rounded mean of its rows' percentages. */
  function CourseProgress(rows: seq<ProgressRow>, c: string): int {
    var own := CourseRows(rows, c);
    if |own| == 0 then 0 else RoundedMean(Total(own), |own|)
  }

  /** Without a row of the course the progress is 0. */
  lemma CourseProgressWithoutRows(rows: seq<ProgressRow>, c: string)
    requires forall i :: 0 <= i < |rows| ==> rows[i].courseId != c
    ensures CourseProgress(rows, c) == 0
  {
    CourseRowsOfOtherCourses(rows, c);
  }

  /** With rows of the course the progress is the nearest integer to the
      mean of their percentages. */
  lemma CourseProgressIsRoundedMean(rows: seq<ProgressRow>, c: string, i: nat)
    requires i < |rows| && rows[i].courseId == c
    ensures var own := CourseRows(rows, c);
      |own| > 0 &&
      2 * |own| * CourseProgress(rows, c) - |own| <= 2 * Total(own) < 2 * |own| * CourseProgress(rows, c) + |own|
  {
    CourseRowsHasRow(rows, c, i);
  }

  lemma CourseRowsHasRow(rows: seq<ProgressRow>, c: string, i: nat)
    requires i < |rows| && rows[i].courseId == c
    ensures |CourseRows(rows, c)| > 0
  {
    assert rows[i] in CourseRows(rows, c);
  }

  lemma {:induction false} CourseRowsOfConcat(a: seq<ProgressRow>, b: seq<ProgressRow>, c: string)
    ensures CourseRows(a + b, c) == CourseRows(a, c) + CourseRows(b, c)
  {
    if a == [] {
      assert a + b == b;
    } else {
      assert (a + b)[0] == a[0];
      assert (a + b)[1..] == a[1..] + b;
      CourseRowsOfConcat(a[1..], b, c);
    }
  }

  lemma {:induction false} CourseRowsOfOtherCourses(rows: seq<ProgressRow>, c: string)
    requires forall i :: 0 <= i < |rows| ==> rows[i].courseId != c
    ensures CourseRows(rows, c) == []
  {
    if rows != [] {
      CourseRowsOfOtherCourses(rows[1..], c);
    }
  }

  /** Rows of other courses, wherever they sit, do not change a course's
      progress. */
  lemma CourseProgressIgnoresOtherCourses(a: seq<ProgressRow>, others: seq<ProgressRow>,
                                           b: seq<ProgressRow>, c: string)
    requires forall i :: 0 <= i < |others| ==> others[i].courseId != c
    ensures CourseProgress(a + others + b, c) == CourseProgress(a + b, c)
  {
    CourseRowsOfConcat(a + others, b, c);
    CourseRowsOfConcat(a, others, c);
    CourseRowsOfConcat(a, b, c);
    CourseRowsOfOtherCourses(others, c);
    assert CourseRows(a + others + b, c) == CourseRows(a + b, c);
  }

  lemma {:induction false} TotalBounds(rows: seq<ProgressRow>, lo: int, hi: int)
    requires forall i :: 0 <= i < |rows| ==> lo <= rows[i].progressPercentage <= hi
    ensures lo * |rows| <= Total(rows) <= hi * |rows|
  {
    if rows != [] {
      TotalBounds(rows[1..], lo, hi);
    }
  }

  lemma RoundedMeanBounds(s: int, n: int, lo: int, hi: int)
    requires n > 0 && lo * n <= s <= hi * n
    ensures lo <= RoundedMean(s, n) <= hi
  {
    var r := RoundedMean(s, n);
    assert 2 * n * (lo - r) == 2 * (lo * n) - 2 * n * r;
    assert 2 * n * (r - hi) == 2 * n * r - 2 * (hi * n);
    SmallMultiple(n, lo - r);
    SmallMultiple(n, r - hi);
  }

  lemma SmallMultiple(n: int, k: int)
    requires n > 0 && 2 * n * k <= n
    ensures k <= 0
  {
  }

  /** When every percentage of the course lies in `[lo, hi]`, so does its
      progress (with no row the progress is 0, which the bounds must allow). */
  lemma CourseProgressBounds(rows: seq<ProgressRow>, c: string, lo: int, hi: int)
    requires lo <= 0 <= hi || exists i :: 0 <= i < |rows| && rows[i].courseId == c
    requires forall i :: 0 <= i < |rows| && rows[i].courseId == c ==> lo <= rows[i].progressPercentage <= hi
    ensures lo <= CourseProgress(rows, c) <= hi
  {
    if exists i :: 0 <= i < |rows| && rows[i].courseId == c {
      var i :| 0 <= i < |rows| && rows[i].courseId == c;
      CourseRowsHasRow(rows, c, i);
      var own := CourseRows(rows, c);
      forall j | 0 <= j < |own|
        ensures lo <= own[j].progressPercentage <= hi
      {
        assert own[j] in rows;
      }
      TotalBounds(own, lo, hi);
      RoundedMeanBounds(Total(own), |own|, lo, hi);
    }
  }

  /** A course all of whose rows are at 100 shows 100, once it has a row. */
  lemma CompletedCourseShowsHundred(rows: seq<ProgressRow>, c: string, i: nat)
    requires i < |rows| && rows[i].courseId == c
    requires forall j :: 0 <= j < |rows| && rows[j].courseId == c ==> rows[j].progressPercentage == 100
    ensures CourseProgress(rows, c) == 100
  {
    CourseProgressBounds(rows, c, 100, 100);
  }

  class Store {
    var progress: seq<ProgressRow>
    var loading: bool

    constructor ()
      ensures progress == [] && !loading
    {
      progress := [];
      loading := false;
    }

    /** The progress of course `c` over the rows held; reading it changes
        nothing. */
    function GetCourseProgress(c: string): (r: int)
      reads this
      ensures (forall i :: 0 <= i < |progress| ==> progress[i].courseId != c) ==> r == 0
      ensures (forall i :: 0 <= i < |progress| && progress[i].courseId == c ==> 0 <= progress[i].progressPercentage <= 100)
              ==> 0 <= r <= 100
    {
      assert (forall i :: 0 <= i < |progress| ==> progress[i].courseId != c) ==> CourseProgress(progress, c) == 0 by {
        if forall i :: 0 <= i < |progress| ==> progress[i].courseId != c {
          CourseProgressWithoutRows(progress, c);
        }
      }
      assert (forall i :: 0 <= i < |progress| && progress[i].courseId == c ==> 0 <= progress[i].progressPercentage <= 100)
             ==> 0 <= CourseProgress(progress, c) <= 100 by {
        if forall i :: 0 <= i < |progress| && progress[i].courseId == c ==> 0 <= progress[i].progressPercentage <= 100 {
          CourseProgressBounds(progress, c, 0, 100);
        }
      }
      CourseProgress(progress, c)
    }

    /** A fetch is issued: the store is loading and its rows are kept. */
    method BeginFetch()
      modifies this`loading
      ensures loading
    {
      loading := true;
    }

    /** A fetch has returned: on success the rows are replaced by the data
        (or by none when there is no data), on failure they are kept and an
        error toast is raised; either way loading ends. */
    method CompleteFetch(outcome: Outcome<Option<seq<ProgressRow>>>) returns (toast: Option<Toast>)
      modifies this`progress, this`loading
      ensures !loading
      ensures outcome.Ok? ==> progress == ListOrEmpty(outcome.data) && toast == None
      ensures outcome.Err? ==> progress == old(progress) && toast == Some(Error("Failed to fetch progress"))
    {
      toast := None;
      if outcome.Ok? {
        progress := ListOrEmpty(outcome.data);
      } else {
        toast := Some(Error("Failed to fetch progress"));
      }
      loading := false;
    }

    /** Fetching the user's rows, with the backend's answer as `outcome`. */
    method FetchProgress(userId: string, outcome: Outcome<Option<seq<ProgressRow>>>) returns (toast: Option<Toast>)
      modifies this`progress, this`loading
      ensures !loading
      ensures outcome.Ok? ==> progress == ListOrEmpty(outcome.data) && toast == None
      ensures outcome.Err? ==> progress == old(progress) && toast == Some(Error("Failed to fetch progress"))
    {
      BeginFetch();
      toast := CompleteFetch(outcome);
    }

    /** Recording a lesson's percentage: the record sent says the lesson is
        completed exactly at 100 or more. When the backend accepts it, the
        rows are fetched again (answer `refresh`); when it refuses, nothing
        changes and an error toast is raised. */
    method UpdateProgress(userId: string, courseId: string, lessonId: string, percentage: int,
                          upsert: Outcome<()>, refresh: Outcome<Option<seq<ProgressRow>>>)
      returns (sent: ProgressRecord, toast: Option<Toast>)
      modifies this`progress, this`loading
      ensures sent == RecordFor(userId, courseId, lessonId, percentage)
      ensures sent.completed <==> percentage >= 100
      ensures upsert.Err? ==> progress == old(progress) && loading == old(loading) &&
                              toast == Some(Error("Failed to update progress"))
      ensures upsert.Ok? && refresh.Ok? ==> progress == ListOrEmpty(refresh.data) && !loading && toast == None
      ensures upsert.Ok? && refresh.Err? ==> progress == old(progress) && !loading &&
                                             toast == Some(Error("Failed to fetch progress"))
    {
      sent := RecordFor(userId, courseId, lessonId, percentage);
      if upsert.Ok? {
        toast := FetchProgress(userId, refresh);
      } else {
        toast := Some(Error("Failed to update progress"));
      }
    }

    /** Marking a lesson complete records 100, so the record sent is always
        a completed one. */
    method MarkLessonComplete(userId: string, courseId: string, lessonId: string,
                              upsert: Outcome<()>, refresh: Outcome<Option<seq<ProgressRow>>>)
      returns (sent: ProgressRecord, toast: Option<Toast>)
      modifies this`progress, this`loading
      ensures sent == RecordFor(userId, courseId, lessonId, 100) && sent.completed
      ensures upsert.Err? ==> progress == old(progress) && loading == old(loading) &&
                              toast == Some(Error("Failed to update progress"))
      ensures upsert.Ok? && refresh.Ok? ==> progress == ListOrEmpty(refresh.data) && !loading && toast == None
      ensures upsert.Ok? && refresh.Err? ==> progress == old(progress) && !loading &&
                                             toast == Some(Error("Failed to fetch progress"))
    {
      sent, toast := UpdateProgress(userId, courseId, lessonId, 100, upsert, refresh);
    }
  }
}
