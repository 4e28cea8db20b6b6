/** The learning section: the course chosen by topic, the lesson being read
    and its place in the course, the tab shown (lesson text, code, practice)
    and three buffers with a live preview that loads React. Lesson
    completion goes through the progress store; the signed-in user and the
    backend's answers are parameters. */
module LearningSection {
  import opened Outcomes
  import opened Buffers
  import opened Courses
  import Preview
  import ProgressStore

  datatype Tab = LessonText | Code | Practice

  datatype Direction = Prev | Next

  /** The lesson index after a move in a course of `count` lessons: the next
      index capped at the last lesson, or the previous one floored at the
      first. From a valid index it moves by one step when there is room and
      stays put at the end it is moving towards. */
  function NavigateIndex(direction: Direction, index: int, count: int): (r: int)
    ensures 0 <= index < count ==> 0 <= r < count
    ensures 0 <= index < count && direction == Next ==> r == (if index == count - 1 then index else index + 1)
    ensures 0 <= index < count && direction == Prev ==> r == (if index == 0 then index else index - 1)
  {
    match direction
    case Next => if index + 1 < count - 1 then index + 1 else count - 1
    case Prev => if index - 1 > 0 then index - 1 else 0
  }

  /** The "previous" button is disabled on the first lesson. */
  predicate PrevDisabled(index: int) {
    index == 0
  }

  /** The "next" button is disabled on the last lesson. */
  predicate NextDisabled(index: int, count: int) {
    index == count - 1
  }

  /** A move changes the lesson exactly when its button is enabled, and then
      by one step in its direction. */
  lemma NavigationMovesIffEnabled(direction: Direction, index: int, count: int)
    requires 0 <= index < count
    ensures direction == Prev ==> (NavigateIndex(direction, index, count) != index <==> !PrevDisabled(index))
    ensures direction == Next ==> (NavigateIndex(direction, index, count) != index <==> !NextDisabled(index, count))
    ensures NavigateIndex(direction, index, count) != index ==>
      NavigateIndex(direction, index, count) == (if direction == Next then index + 1 else index - 1)
  {
  }

  /** The buffers after moving to `lesson`: its code example when it has
      one, else the buffers as they were. */
  function LessonBuffers(lesson: Lesson, current: Buffers): (r: Buffers)
    ensures lesson.codeExample.Some? ==> r == ExampleBuffers(lesson.codeExample.value)
    ensures lesson.codeExample.None? ==> r == current
  {
    if lesson.codeExample.Some? then ExampleBuffers(lesson.codeExample.value) else current
  }

  class Section {
    var course: Option<Course>
    var lesson: Option<Lesson>
    var lessonIndex: int
    var tab: Tab
    var code: Buffers
    const progress: ProgressStore.Store

    /** The lesson shown is the one at the lesson index of the course; a
        course without lessons shows none, and there is no lesson without a
        course. */
    ghost predicate Valid()
      reads this
    {
      && 0 <= lessonIndex
      && (course.None? ==> lesson.None?)
      && (course.Some? && |course.value.lessons| == 0 ==> lesson.None? && lessonIndex == 0)
      && (course.Some? && |course.value.lessons| > 0 ==>
            lessonIndex < |course.value.lessons| && lesson == Some(course.value.lessons[lessonIndex]))
    }

    /** Before a topic is chosen: no course, the lesson text tab, empty
        buffers. */
    constructor (progress: ProgressStore.Store)
      ensures Valid() && this.progress == progress
      ensures course.None? && lesson.None? && lessonIndex == 0
      ensures tab == LessonText && code == Empty
    {
      this.progress := progress;
      course := None;
      lesson := None;
      lessonIndex := 0;
      tab := LessonText;
      code := Empty;
    }

    /** The page the preview frame shows for the current buffers. */
    function PreviewDocument(): string
      reads this
    {
      Preview.LessonPreview(code)
    }

    /** Choosing a topic opens the first course with that id on its first
        lesson, loading the lesson's code example if it has one; an unknown
        topic changes nothing. */
    method SelectTopic(catalogue: seq<Course>, topic: string)
      requires Valid()
      modifies this`course, this`lesson, this`lessonIndex, this`code
      ensures Valid() && tab == old(tab)
      ensures FindCourse(catalogue, topic).None? ==>
        course == old(course) && lesson == old(lesson) && lessonIndex == old(lessonIndex) && code == old(code)
      ensures FindCourse(catalogue, topic).Some? ==>
        var c := FindCourse(catalogue, topic).value;
        && course == Some(c) && lessonIndex == 0
        && (|c.lessons| == 0 ==> lesson.None? && code == old(code))
        && (|c.lessons| > 0 ==> lesson == Some(c.lessons[0]) && code == LessonBuffers(c.lessons[0], old(code)))
    {
      var found := FindCourse(catalogue, topic);
      if found.Some? {
        var c := found.value;
        course := Some(c);
        lessonIndex := 0;
        if |c.lessons| > 0 {
          lesson := Some(c.lessons[0]);
          code := LessonBuffers(c.lessons[0], code);
        } else {
          lesson := None;
        }
      }
    }

    /** Moving to the previous or next lesson: the index moves as
        `NavigateIndex` says, the lesson follows it, and the buffers take the
        new lesson's code example if it has one. Without a course nothing
        happens. */
    method NavigateLesson(direction: Direction)
      requires Valid()
      requires course.Some? ==> |course.value.lessons| > 0
      modifies this`lesson, this`lessonIndex, this`code
      ensures Valid()
      ensures old(course).None? ==> lesson == old(lesson) && lessonIndex == old(lessonIndex) && code == old(code)
      ensures old(course).Some? ==>
        var lessons := course.value.lessons;
        && lessonIndex == NavigateIndex(direction, old(lessonIndex), |lessons|)
        && lesson == Some(lessons[lessonIndex])
        && code == LessonBuffers(lessons[lessonIndex], old(code))
    {
      if course.None? {
        return;
      }
      var lessons := course.value.lessons;
      var newIndex := NavigateIndex(direction, lessonIndex, |lessons|);
      lesson := Some(lessons[newIndex]);
      lessonIndex := newIndex;
      code := LessonBuffers(lessons[newIndex], code);
    }

    /** Completing the lesson: without a user or a lesson nothing happens.
        Otherwise 100 is recorded for the lesson (a completed record) and,
        unless this is the last lesson, the section moves to the next one and
        loads its code example if it has one. The move happens whatever the
        backend answered. */
    method HandleLessonComplete(user: Option<User>, upsert: Outcome<()>,
                                refresh: Outcome<Option<seq<ProgressStore.ProgressRow>>>)
      returns (sent: Option<ProgressStore.ProgressRecord>, toast: Option<Toast>)
      requires Valid()
      modifies this`lesson, this`lessonIndex, this`code, progress`progress, progress`loading
      ensures Valid()
      ensures user.None? || old(lesson).None? ==>
        && sent == None && toast == None
        && lesson == old(lesson) && lessonIndex == old(lessonIndex) && code == old(code)
        && progress.progress == old(progress.progress) && progress.loading == old(progress.loading)
      ensures user.Some? && old(lesson).Some? ==>
        var lessons := course.value.lessons;
        && sent == Some(ProgressStore.RecordFor(user.value.id, course.value.id, old(lesson).value.id, 100))
        && sent.value.completed
        && (old(lessonIndex) < |lessons| - 1 ==>
              lessonIndex == old(lessonIndex) + 1 && lesson == Some(lessons[lessonIndex]) &&
              code == LessonBuffers(lessons[lessonIndex], old(code)))
        && (old(lessonIndex) == |lessons| - 1 ==>
              lesson == old(lesson) && lessonIndex == old(lessonIndex) && code == old(code))
      ensures user.Some? && old(lesson).Some? && upsert.Err? ==>
        progress.progress == old(progress.progress) && progress.loading == old(progress.loading) &&
        toast == Some(Error("Failed to update progress"))
      ensures user.Some? && old(lesson).Some? && upsert.Ok? ==>
        !progress.loading &&
        (refresh.Ok? ==> progress.progress == ListOrEmpty(refresh.data) && toast == None) &&
        (refresh.Err? ==> progress.progress == old(progress.progress) && toast == Some(Error("Failed to fetch progress")))
    {
      if user.None? || lesson.None? {
        return None, None;
      }
      var record;
      record, toast := progress.UpdateProgress(user.value.id, course.value.id, lesson.value.id, 100, upsert, refresh);
      sent := Some(record);
      var lessons := course.value.lessons;
      if lessonIndex < |lessons| - 1 {
        var nextIndex := lessonIndex + 1;
        lesson := Some(lessons[nextIndex]);
        lessonIndex := nextIndex;
        code := LessonBuffers(lessons[nextIndex], code);
      }
    }

    /** Starting the lesson's first exercise puts its starting code in all
        three buffers and switches to the code tab. */
    method StartExercise()
      requires Valid()
      requires lesson.Some? && lesson.value.exercises.Some? && |lesson.value.exercises.value| > 0
      modifies this`code, this`tab
      ensures Valid()
      ensures code == lesson.value.exercises.value[0].startingCode
      ensures tab == Code
    {
      code := lesson.value.exercises.value[0].startingCode;
      tab := Code;
    }

    /** Resetting empties all three buffers. */
    method ResetCode()
      requires Valid()
      modifies this`code
      ensures Valid()
      ensures code == Empty
    {
      code := Empty;
    }

    /** Typing in the text area of buffer `kind` sets that buffer and leaves
        the other two as they were. */
    method EditBuffer(kind: BufferKind, value: string)
      requires Valid()
      modifies this`code
      ensures Valid()
      ensures code.Get(kind) == value
      ensures forall other :: other != kind ==> code.Get(other) == old(code).Get(other)
    {
      code := code.With(kind, value);
    }

    /** Choosing a tab changes only the tab. */
    method SelectTab(t: Tab)
      requires Valid()
      modifies this`tab
      ensures Valid()
      ensures tab == t
    {
      tab := t;
    }
  }
}
