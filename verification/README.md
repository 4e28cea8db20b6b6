# CODECRAFTER live-preview core in Dafny

CODECRAFTER is a browser application for learning web development. Its
only non-trivial logic is the **live-preview editor state**:

- Three text buffers hold markup, style and script (`code.html`, `code.css`,
  `code.javascript`).
- A template composes the buffers into the document shown in a sandboxed
  iframe.
- Two components keep such a state. The stand-alone editor (`CodeEditor`)
  strips the page skeleton (`<!DOCTYPE>`, `<html>`, `</html>`,
  `<head>…</head>`) from the markup with one case-insensitive global regular
  expression. The lesson view (`LearningSection`) embeds the markup verbatim
  and loads React in the head.
- Two client-side stores update in-memory lists once a backend call has
  returned. The project store keeps saved editor projects. The progress
  store keeps lesson-progress rows and averages them per course.

This project models that core and proves properties of it. It has these
modules:

| file | module | what it holds |
|---|---|---|
| `outcomes.dfy` | `Outcomes` | `Option`, the backend `Outcome` (`Ok(data)` / `Err`), `Toast`, the signed-in `User` |
| `sequences.dfy` | `Sequences` | subsequence, shared by the scanner and the stores |
| `buffers.dfy` | `Buffers` | the closed `BufferKind` enum and the buffer triple |
| `skeleton.dfy` | `Skeleton` | the regular expression of `CodeEditor.tsx` line 279 as a left-to-right scanner `Strip` |
| `preview.dfy` | `Preview` | both preview templates |
| `courses.dfy` | `Courses` | the lesson and course shapes of the catalogue |
| `project_store.dfy` | `ProjectStore` | the project store as a class |
| `progress_store.dfy` | `ProgressStore` | the progress store as a class |
| `starter_code.dfy` | `StarterCode` | the pages the editor starts with and resets to |
| `code_editor.dfy` | `CodeEditor` | the editor component as a class |
| `learning_section.dfy` | `LearningSection` | the lesson view as a class |

## How the model is built

**Backend calls are outcomes.** Every call to the remote database is a
method parameter of type `Outcome<T>`. The caller picks what the database
answered, and the store's in-memory change is stated for both answers. The
toast a store method raises is returned as a `Toast` value.

**The regular expression is a scanner.** At each position it tries the four
alternatives in the written order:

- `[^>]*` stops at the first `>`.
- The lazy head alternative stops at the nearest following `</head>`.
- An alternative that cannot complete does not apply.
- If none applies, one character is copied.

JavaScript's `i` flag without `u` never lets a non-ASCII character match an
ASCII one, so for these all-ASCII patterns the comparison is ASCII case
folding (`Skeleton.Lower`).

**Rounding.** For an integer sum `s` over `n > 0` rows, `Math.round(s / n)` is
the integer `r` with `2nr - n <= 2s < 2nr + n`. `ProgressStore.RoundedMean`
computes it as `(2s + n) / (2n)` with floor division.

**Sequential calls.** The progress refresh that `updateProgress` starts
without awaiting it (`progressStore.ts:59`) is modelled as running right
after the upsert.

## Model

| member | source | states |
|---|---|---|
| Buffers.Buffers.With | src/components/CodeEditor.tsx:177-179 | replacing one buffer sets it to the new text and keeps the other two |
| Skeleton.FindChar | src/components/CodeEditor.tsx:279 | where `[^>]*>` stops: a position at or after the start that holds `>` |
| Skeleton.FindCharFirst | src/components/CodeEditor.tsx:279 | `[^>]*` stops at the first `>`: none lies between the start and the stop, nor anywhere after the start when there is none |
| Skeleton.FindCI | src/components/CodeEditor.tsx:279 | where the lazy `[\s\S]*?</head>` stops: a position at or after the start with room for `</head>` |
| Skeleton.FindCIFirst | src/components/CodeEditor.tsx:279 | the lazy match stops at the nearest case-insensitive `</head>`: one occurs there and none starts before it |
| Skeleton.MatchHtmlOpen | src/components/CodeEditor.tsx:279 | alternative `<html[^>]*>`: its match at a case-insensitive `<html` runs through the first `>` (`HtmlOpenMatch`, `StripKeepsUnclosedHtml`) |
| Skeleton.MatchHtmlClose | src/components/CodeEditor.tsx:279 | alternative `</html>`: exactly those seven characters in any case (`HtmlCloseMatch`) |
| Skeleton.MatchHead | src/components/CodeEditor.tsx:279 | alternative `<head[^>]*>[\s\S]*?</head>`: the tag through its first `>`, then up to the end of the nearest `</head>` (`HeadMatch`, `UnclosedHeadNoMatch`, `StripSwallowsHeader`) |
| Skeleton.MatchDoctype | src/components/CodeEditor.tsx:279 | alternative `<!DOCTYPE[^>]*>`: through the first `>`, in any case (`DoctypeMatch`) |
| Skeleton.MatchAt | src/components/CodeEditor.tsx:279 | a match of the pattern is never empty and never runs past the markup |
| Skeleton.MatchShape | src/components/CodeEditor.tsx:279 | every match starts with `<` and ends with `>` |
| Skeleton.Strip | src/components/CodeEditor.tsx:279 | the global `replace(…, '')`: every match, tried left to right, is removed; described by `StripIsSubsequence`, `StripWithoutBrackets`, `StripCopiesText`, the `StripRemoves…` and `StripKeeps…` lemmas, `StripSwallowsHeader` and `StripNotIdempotent` |
| Skeleton.StripIsSubsequence | src/components/CodeEditor.tsx:279 | stripping only deletes characters: the result is a subsequence of the markup, never longer |
| Skeleton.StripWithoutBrackets | src/components/CodeEditor.tsx:279 | markup without a `<` (or without a `>`) is returned unchanged |
| Skeleton.StripCopiesText | src/components/CodeEditor.tsx:279 | text without `<` in front of the markup passes through verbatim |
| Skeleton.StripKeepsUnmatched | src/components/CodeEditor.tsx:279 | a position opening none of the four alternatives is copied |
| Skeleton.HtmlOpenMatch | src/components/CodeEditor.tsx:279 | at `<html…>` in any letter case the pattern matches exactly through the first `>` |
| Skeleton.StripRemovesHtmlOpen | src/components/CodeEditor.tsx:279 | `<html…>` in any letter case, with any attributes, is removed through its first `>` |
| Skeleton.HtmlCloseMatch | src/components/CodeEditor.tsx:279 | at `</html>` in any letter case the pattern matches exactly those seven characters |
| Skeleton.StripRemovesHtmlClose | src/components/CodeEditor.tsx:279 | `</html>` in any letter case is removed |
| Skeleton.DoctypeMatch | src/components/CodeEditor.tsx:279 | at `<!DOCTYPE…>` in any letter case the pattern matches exactly through the first `>` |
| Skeleton.StripRemovesDoctype | src/components/CodeEditor.tsx:279 | `<!DOCTYPE…>` in any letter case is removed through its first `>` |
| Skeleton.HeadMatch | src/components/CodeEditor.tsx:279 | at `<head…>` the pattern matches through the end of the nearest following `</head>` |
| Skeleton.StripRemovesHead | src/components/CodeEditor.tsx:279 | `<head…>` is removed with everything up to and including the nearest following `</head>` |
| Skeleton.UnclosedHeadNoMatch | src/components/CodeEditor.tsx:279 | at a `<head` with no `</head>` after the tag's first `>` the pattern does not match |
| Skeleton.StripKeepsUnclosedHead | src/components/CodeEditor.tsx:279 | a `<head…>` with no `</head>` after the tag's first `>` is left intact: its `<` is copied |
| Skeleton.KeepsBrokenTagStart | src/components/CodeEditor.tsx:279 | `<ht` followed by `<`, in any case, opens no alternative: its `<` is copied |
| Skeleton.StripKeepsUnclosedHtml | src/components/CodeEditor.tsx:279 | an `<html` with no `>` after it is left intact: its `<` is copied and nothing of the markup is removed |
| Skeleton.BodyTagNoMatch | src/components/CodeEditor.tsx:279 | at `<body` or `</body` the pattern does not match |
| Skeleton.StripKeepsBodyTags | src/components/CodeEditor.tsx:279 | a `<body…` or `</body…` that the scan reaches is copied, since no alternative starts there |
| Skeleton.BodyTagInsideHtmlTag | src/components/CodeEditor.tsx:279 | a body tag in the attributes of an `<html…>` tag is removed with that tag |
| Skeleton.BodyTagInsideHead | src/components/CodeEditor.tsx:279 | a body tag within a head element is removed with that element |
| Skeleton.StripSwallowsHeader | src/components/CodeEditor.tsx:279 | `<head[^>]*>` also matches `<header…>`, which is then swallowed up to the nearest `</head>` |
| Skeleton.StripsInnerTag | src/components/CodeEditor.tsx:279 | inside `<ht<html>ml>` the scan removes the inner `<html>` and keeps the surrounding letters |
| Skeleton.StripNotIdempotent | src/components/CodeEditor.tsx:279 | stripping is not idempotent: `<ht<html>ml>` strips to `<html>`, which strips to nothing |
| Skeleton.StripRemovesPageOpening | src/components/CodeEditor.tsx:279 | a doctype, an `<html…>` and a whole head in front of the content, in any spelling, are all removed; only the text between them stays |
| Skeleton.StripRemovesSkeleton | src/components/CodeEditor.tsx:279 | a full page skeleton as usually written strips to what its body content (with the separating text) strips to |
| Preview.Fill | src/components/CodeEditor.tsx:268-284 | the template shared by both previews, with its fixed texts as parameters; its layout is `FillLayout`, its injectivity `FillDeterminesParts` |
| Preview.EditorPreview | src/components/CodeEditor.tsx:268-284 | the editor's `generatePreview`: the template filled with the style buffer, the stripped markup and the script buffer (`EditorPreviewParts`, `PreviewsEndWithScript`, `EditorPreviewDeterminesBuffers`, `EditorPreviewIgnoresSkeleton`) |
| Preview.LessonPreview | src/components/LearningSection.tsx:99-117 | the lesson view's `generatePreview`: React in the head and the markup unstripped (`LessonPreviewParts`, `PreviewsEndWithScript`, `LessonPreviewDeterminesBuffers`) |
| Preview.FillLayout | src/components/CodeEditor.tsx:268-284 | the template puts each part at its place: style text between `<style>` and `</style>`, then the fixed text, the body, and the script text between `<script>` and `</script>` before the fixed end |
| Preview.FillDeterminesParts | src/components/CodeEditor.tsx:268-284 | for style and script texts of given lengths, equal documents iff equal style, body and script texts |
| Preview.FillKeepsEmptyElements | src/components/CodeEditor.tsx:276-280 | empty style and script texts still give `<style></style>` and `<script></script>` |
| Preview.FillScriptPart | src/components/CodeEditor.tsx:280-283 | the script element and the fixed end close every filled template |
| Preview.FillStylePart | src/components/CodeEditor.tsx:269-276 | the document opens with the fixed head text, followed by the style element holding the style text |
| Preview.FillBodyPart | src/components/CodeEditor.tsx:276-279 | after the style element come the fixed text closing the head and opening the body, then the body text |
| Preview.StyleElementInjective | src/components/CodeEditor.tsx:276 | equal style elements hold equal style texts |
| Preview.ScriptElementInjective | src/components/CodeEditor.tsx:280 | equal script elements hold equal script texts |
| Preview.EditorPreviewParts | src/components/CodeEditor.tsx:268-284 | the editor preview holds the style buffer verbatim inside `<style>` in the head, and its body opens with the stripped markup right after the end of the head |
| Preview.PreviewsEndWithScript | src/components/CodeEditor.tsx:280-283 | both previews end with the script buffer verbatim in `<script>`, then only the fixed end of the document |
| Preview.EditorPreviewDeterminesBuffers | src/components/CodeEditor.tsx:268-284 | for style and script texts of given lengths, two buffer sets give the same editor preview iff equal style, equal script and equally stripped markup |
| Preview.EditorPreviewIgnoresSkeleton | src/components/CodeEditor.tsx:268-284 | a full-page markup previews exactly as the markup that follows the head (with the separating text in front) does |
| Preview.LessonPreviewParts | src/components/LearningSection.tsx:99-117 | the lesson preview holds the style buffer verbatim inside `<style>`, always loads the React and ReactDOM scripts in the head after it, and its body holds the markup verbatim, unstripped |
| Preview.EmptyBuffersKeepElements | src/components/LearningSection.tsx:107-113 | in both previews, empty style and script buffers still give `<style></style>` and `<script></script>` (likewise CodeEditor.tsx lines 276 and 280) |
| Preview.LessonPreviewDeterminesBuffers | src/components/LearningSection.tsx:99-117 | the lesson preview loses nothing: for style and script texts of given lengths, equal previews iff equal buffer sets |
| Courses.ExampleBuffers | src/components/LearningSection.tsx:47-51 | a code example loads each buffer with its text, or with the empty text when the field is missing |
| Courses.FindCourse | src/components/LearningSection.tsx:39 | the first course whose id is the topic, or none iff no course has that id |
| ProjectStore.ReplaceById | src/store/projectStore.ts:89 | same length and order; every project with the id becomes the returned row; all others are unchanged |
| ProjectStore.RemoveById | src/store/projectStore.ts:110 | the result keeps exactly the projects without the id, as a subsequence in their order |
| ProjectStore.RemoveByIdLength | src/store/projectStore.ts:110 | removal drops one element per project with the id and no other |
| ProjectStore.AbsentIdChangesNothing | src/store/projectStore.ts:89-110 | an id no project has leaves the list unchanged under replace and remove |
| ProjectStore.RemoveAfterReplace | src/store/projectStore.ts:89-110 | replacing and then removing an id gives the same list as removing it directly |
| ProjectStore.CurrentAfterUpdate | src/store/projectStore.ts:90 | the current project is replaced iff its id is the updated one |
| ProjectStore.CurrentAfterDelete | src/store/projectStore.ts:111 | the current project is cleared iff its id is the deleted one; otherwise it stays |
| Outcomes.ListOrEmpty | src/store/projectStore.ts:44 | a successful fetch of projects (and, in the same way, of progress rows) stores the data, or the empty list when there is none |
| ProjectStore.Store.constructor | src/store/projectStore.ts:30-32 | the store starts with no projects, no current project, not loading |
| ProjectStore.Store.BeginFetch | src/store/projectStore.ts:35 | issuing a fetch sets loading |
| ProjectStore.Store.CompleteFetch | src/store/projectStore.ts:36-50 | on success the list becomes the data or empty; on failure it is kept and "Failed to fetch projects" is raised; loading ends either way |
| ProjectStore.Store.FetchProjects | src/store/projectStore.ts:34-51 | loading is set, then cleared in both outcomes; success replaces the list, failure keeps it |
| ProjectStore.Store.SaveProject | src/store/projectStore.ts:53-75 | success prepends the returned row with "Project saved successfully!"; failure keeps the list with "Failed to save project"; the current project is never touched |
| ProjectStore.Store.UpdateProject | src/store/projectStore.ts:77-98 | success replaces by id in the list and in the current project with "Project updated successfully!"; failure changes nothing and raises "Failed to update project" |
| ProjectStore.Store.DeleteProject | src/store/projectStore.ts:100-119 | success removes by id, clears the current project iff it had the id, and leaves no project with the id; failure changes nothing and raises "Failed to delete project" |
| ProjectStore.Store.SetCurrentProject | src/store/projectStore.ts:121-123 | only the current project changes |
| ProgressStore.RecordFor | src/store/progressStore.ts:48-54 | the upserted row carries the ids and the percentage, and is completed iff the percentage is at least 100 |
| ProgressStore.CourseRows | src/store/progressStore.ts:72 | the rows kept are exactly those of the course |
| ProgressStore.Total | src/store/progressStore.ts:75 | the `reduce` summing the course's percentages (`TotalBounds`) |
| ProgressStore.RoundedMean | src/store/progressStore.ts:76 | the result is the integer nearest to `s / n`, halves rounded up, as `Math.round` gives |
| ProgressStore.CourseProgress | src/store/progressStore.ts:70-77 | `getCourseProgress`: 0 without rows of the course, else the rounded mean of their percentages (`CourseProgressWithoutRows`, `CourseProgressIsRoundedMean`, `CourseProgressIgnoresOtherCourses`, `CourseProgressBounds`, `CompletedCourseShowsHundred`) |
| ProgressStore.CourseProgressWithoutRows | src/store/progressStore.ts:72-73 | a course without rows shows 0 |
| ProgressStore.CourseProgressIsRoundedMean | src/store/progressStore.ts:72-76 | a course with rows shows the rounded mean of their percentages |
| ProgressStore.CourseRowsOfConcat | src/store/progressStore.ts:72 | filtering by course distributes over concatenation |
| ProgressStore.CourseProgressIgnoresOtherCourses | src/store/progressStore.ts:72-76 | rows of other courses, wherever they sit, do not change a course's progress |
| ProgressStore.TotalBounds | src/store/progressStore.ts:75 | a sum of `n` percentages in `[lo, hi]` lies in `[n·lo, n·hi]` |
| ProgressStore.RoundedMeanBounds | src/store/progressStore.ts:76 | rounding a mean of values in `[lo, hi]` stays in `[lo, hi]` |
| ProgressStore.CourseProgressBounds | src/store/progressStore.ts:72-76 | if every percentage of the course lies in `[lo, hi]`, so does its progress |
| ProgressStore.CompletedCourseShowsHundred | src/store/progressStore.ts:72-76 | a course whose rows are all at 100 shows 100 |
| ProgressStore.Store.constructor | src/store/progressStore.ts:23-24 | the store starts with no rows, not loading |
| ProgressStore.Store.GetCourseProgress | src/store/progressStore.ts:70-77 | reading the progress changes nothing; it is 0 without rows of the course and in `[0, 100]` when the rows are |
| ProgressStore.Store.BeginFetch | src/store/progressStore.ts:27 | issuing a fetch sets loading |
| ProgressStore.Store.CompleteFetch | src/store/progressStore.ts:28-41 | on success the rows become the data or none; on failure they are kept and "Failed to fetch progress" is raised; loading ends either way |
| ProgressStore.Store.FetchProgress | src/store/progressStore.ts:26-42 | loading is set, then cleared in both outcomes; success replaces the rows, failure keeps them |
| ProgressStore.Store.UpdateProgress | src/store/progressStore.ts:44-64 | the record sent is completed iff the percentage is at least 100; an accepted upsert refetches; a refused one changes nothing and raises "Failed to update progress" |
| ProgressStore.Store.MarkLessonComplete | src/store/progressStore.ts:66-68 | delegates with 100, so the record sent is always completed |
| StarterCode.ResetDiffersFromInitial | src/components/CodeEditor.tsx:28-194 | the reset markup is a different, shorter page than the starting markup |
| CodeEditor.TrimStart | src/components/CodeEditor.tsx:235 | the result is a suffix of the text after leading white space only, and does not start with white space |
| CodeEditor.TrimEnd | src/components/CodeEditor.tsx:235 | the result is a prefix of the text before trailing white space only, and does not end with white space |
| CodeEditor.Trim | src/components/CodeEditor.tsx:235 | JavaScript's `trim`: white space dropped at both ends (`TrimStart`, `TrimEnd`, `TrimEmptyIffBlank`) |
| CodeEditor.TrimEmptyIffBlank | src/components/CodeEditor.tsx:235 | a title trims to nothing iff all its characters are ECMAScript white space or line terminators |
| CodeEditor.TitleMissing | src/components/CodeEditor.tsx:235 | the dialog's title check fails exactly on a blank title |
| CodeEditor.Editor.constructor | src/components/CodeEditor.tsx:23-160 | the editor opens on the starting page with the markup tab active and the save dialog closed and empty |
| CodeEditor.Editor.PreviewDocument | src/components/CodeEditor.tsx:268-284 | the document the editor's preview frame shows: `EditorPreview` of the current buffers |
| CodeEditor.Editor.LoadUserProjects | src/components/CodeEditor.tsx:165-169 | a signed-in user's projects are fetched; without a user nothing happens |
| CodeEditor.Editor.HandleCodeChange | src/components/CodeEditor.tsx:177-179 | the edited buffer becomes the new text; the other two are unchanged |
| CodeEditor.Editor.EditActiveBuffer | src/components/CodeEditor.tsx:456-457 | the text area edits the buffer of the active tab only |
| CodeEditor.Editor.SelectTab | src/components/CodeEditor.tsx:422 | choosing a tab changes only the active tab |
| CodeEditor.Editor.ResetCode | src/components/CodeEditor.tsx:181-217 | all three buffers become the reset page whatever they held |
| CodeEditor.Editor.LoadProject | src/components/CodeEditor.tsx:258-266 | the buffers become exactly the project's three texts, it becomes the current project, and "Loaded project: " plus its title is raised |
| CodeEditor.Editor.OpenSaveModal | src/components/CodeEditor.tsx:321 | the save dialog opens |
| CodeEditor.Editor.CloseSaveModal | src/components/CodeEditor.tsx:569 | the save dialog closes |
| CodeEditor.Editor.SetProjectTitle | src/components/CodeEditor.tsx:547 | the title field takes the typed text |
| CodeEditor.Editor.SetProjectDescription | src/components/CodeEditor.tsx:559 | the description field takes the typed text |
| CodeEditor.Editor.HandleSaveProject | src/components/CodeEditor.tsx:229-256 | without a user or with a blank title nothing is sent and nothing changes but an error toast; otherwise the title, description and buffers go out as a private project, the store's answer decides the list and the toast, and the dialog closes and clears whatever it answered; the buffers are outside the frame |
| LearningSection.NavigateIndex | src/components/LearningSection.tsx:82-84 | from a valid index the new index stays in range and moves one step unless already at the end it moves towards |
| LearningSection.NavigationMovesIffEnabled | src/components/LearningSection.tsx:315-334 | a move changes the index iff its button is enabled (Previous disabled exactly at 0, Next exactly at the last lesson), and then by one |
| LearningSection.LessonBuffers | src/components/LearningSection.tsx:90-96 | moving to a lesson loads its code example if it has one, else keeps the buffers |
| LearningSection.Section.constructor | src/components/LearningSection.tsx:25-33 | no course or lesson, index 0, lesson-text tab, empty buffers |
| LearningSection.Section.Valid | src/components/LearningSection.tsx:25-27 | the view's invariant: no lesson without a course, and with a non-empty course the index in range and the shown lesson the one at the index; every method keeps it |
| LearningSection.Section.PreviewDocument | src/components/LearningSection.tsx:99-117 | the document the lesson's preview frame shows: `LessonPreview` of the current buffers |
| LearningSection.Section.SelectTopic | src/components/LearningSection.tsx:38-54 | a matching topic opens the course at lesson 0, loading its example if present; an unknown topic changes nothing |
| LearningSection.Section.NavigateLesson | src/components/LearningSection.tsx:79-97 | the index moves as `NavigateIndex` says, stays in range, the lesson is the one at the index, and buffers change only if that lesson has an example |
| LearningSection.Section.HandleLessonComplete | src/components/LearningSection.tsx:56-77 | no-op without user or lesson; otherwise records 100 (completed) for the lesson and advances by exactly one unless on the last lesson; a failed update leaves the progress list and its loading flag unchanged |
| LearningSection.Section.StartExercise | src/components/LearningSection.tsx:294-297 | all three buffers become the first exercise's starting code and the code tab opens |
| LearningSection.Section.ResetCode | src/components/LearningSection.tsx:353 | all three buffers become empty |
| LearningSection.Section.EditBuffer | src/components/LearningSection.tsx:371-389 | each text area changes only its own buffer |
| LearningSection.Section.SelectTab | src/components/LearningSection.tsx:205 | choosing a tab changes only the tab |

## Left out

- Supabase and the authentication store are not part of this model. Every
  backend answer is an `Outcome` parameter, and the signed-in user is an
  `Option<User>` parameter.
- Server-side work is left out: the `updated_at` ordering of fetched
  projects, the user filter of both fetches, upsert conflict resolution, and
  what the inserted or updated row contains. The returned row is taken as
  given.
- The `updates` payload of `updateProject` goes only to the backend, so
  `ProjectStore.Store.UpdateProject` takes just the id and the outcome.
- Toasts are returned values. Their display and the `console.error` logging
  are browser behaviour.
- The iframe sandbox, running scripts inside the preview, clipboard copying
  (`copyCode`), animations and date formatting are left out. They are
  browser behaviour.
- Interleaving of in-flight requests is not modelled. Each store call runs to
  completion, and the refresh that `updateProgress` starts without awaiting
  it runs right after the upsert.
- LearningSection.Section.NavigateLesson: requires a non-empty lesson list
  when a course is open. On an empty course the source reads an undefined
  lesson (`lessons[-1]` for next, `lessons[0]` for previous) and would throw
  on its `codeExample`, but its
  buttons are rendered only while a lesson is shown (`LearningSection.tsx`
  line 119).
- LearningSection.Section.StartExercise: requires a lesson with at least one
  exercise, because the button exists only then (`LearningSection.tsx` line
  285).
- The overall course progress bar that the lesson view renders from
  `getCourseProgress` is left out. It is display only; the value it shows is
  `ProgressStore.Store.GetCourseProgress`.
- Percentages are integers. The source's `number` could hold fractions, but
  the only value ever recorded is 100.
- Characters are Unicode scalar values, not UTF-16 code units. This changes
  nothing for the ASCII patterns and the white-space set used here.
- The display-only fields of a course (icon, colours, rating, …) are left
  out. So is the exercise solution's use in the UI, and the static
  catalogue data of `courses.ts` (only its shapes are modelled).
