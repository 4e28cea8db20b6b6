/** The shapes of the course catalogue the learning section reads: a course
    is an ordered list of lessons, and a lesson may carry a code example
    (each of its three texts optional) and a list of exercises with starting
    code. The display-only fields of a course (icon, colours, rating, …) are
    left out. */
module Courses {
  import opened Outcomes
  import opened Buffers

  datatype CodeExample = CodeExample(html: Option<string>, css: Option<string>, javascript: Option<string>)

  datatype Exercise = Exercise(id: string, title: string, description: string,
                               startingCode: Buffers, solution: Buffers)

  datatype Lesson = Lesson(id: string, title: string, description: string, content: string,
                           codeExample: Option<CodeExample>, exercises: Option<seq<Exercise>>)

  datatype Course = Course(id: string, title: string, lessons: seq<Lesson>)

  /** The text of an optional field with a missing field read as empty, as
      `field || ''` does (an empty text stays empty either way). */
  function OrEmpty(field: Option<string>): string {
    if field.Some? then field.value else ""
  }

  /** The buffer set a code example loads: each buffer holds the example's
      text for it, or nothing when the example has none. */
  function ExampleBuffers(e: CodeExample): (r: Buffers)
    ensures e.html.Some? ==> r.html == e.html.value
    ensures e.css.Some? ==> r.css == e.css.value
    ensures e.javascript.Some? ==> r.javascript == e.javascript.value
    ensures e.html.None? ==> r.html == ""
    ensures e.css.None? ==> r.css == ""
    ensures e.javascript.None? ==> r.javascript == ""
  {
    Buffers(OrEmpty(e.html), OrEmpty(e.css), OrEmpty(e.javascript))
  }

  /** The first course of the catalogue whose id is `topic`, if any. */
  function FindCourse(catalogue: seq<Course>, topic: string): (r: Option<Course>)
    ensures r.None? <==> forall i :: 0 <= i < |catalogue| ==> catalogue[i].id != topic
    ensures r.Some? ==> r.value.id == topic
    ensures r.Some? ==>
      exists i :: 0 <= i < |catalogue| && catalogue[i] == r.value &&
        (forall j :: 0 <= j < i ==> catalogue[j].id != topic)
  {
    if catalogue == [] then None
    else if catalogue[0].id == topic then
      Some(catalogue[0])
    else
      var r := FindCourse(catalogue[1..], topic);
      assert forall i :: 1 <= i < |catalogue| ==> catalogue[i] == catalogue[1..][i - 1];
      r
  }
}
