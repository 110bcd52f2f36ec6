# Lecture quizzes, chat and course tree — a Dafny model

This project models the client-side logic of a React e-learning application: students browse
courses, watch lectures, chat with an assistant about a lecture, and pass a generated quiz to
unlock the next lecture. Administrators edit the course, section and lecture tree. The Dafny
modules mirror the application's files:

- `TestGenerator` (`src/components/TestGenerator.tsx`). Turns lecture text into a ten-question
  quiz:
  - rejects empty input and truncates the text;
  - extracts the JSON payload from the assistant's reply with the three regular expressions,
    tried in order;
  - locates the question list and validates each entry;
  - rebalances some answers to a random slot;
  - stores a fresh attempt under `test_<lectureId>`.
- `TestTaker` (`src/components/TestTaker.tsx`). Loads a stored attempt, scores each answer,
  advances or completes it after the feedback dwell, and retries a failed attempt. A retry
  permutes the questions, reshuffles every question's options around its correct answer and
  resets the counters.
- `AIChat` (`src/components/AIChat.tsx`). The lecture chat:
  - the submission guard;
  - the user message, with or without an image;
  - the request window of the last five messages plus the current one;
  - the assistant reply, fallback and error message;
  - image redaction before storage and export;
  - upload validation;
  - clearing the transcript.
- `CoursesPage` (`src/pages/CoursesPage.tsx`). Course filtering by semester and search query, and
  the list of semesters offered.
- `AdminPage` (`src/pages/AdminPage.tsx`). The admin console:
  - the sorted course tree;
  - the expanded-row sets;
  - title guards;
  - `max + 1` order assignment;
  - the local tree updates after each add, update and delete of a course, section or lecture.
- `LecturePage` (`src/pages/LecturePage.tsx`). Previous and next lecture, Next-button gating,
  navigation after a test, and the choice of test widget.
- `CourseLecturesPage` (`src/pages/CourseLecturesPage.tsx`). The course outline: sorted sections
  and lectures, all sections expanded at first, and lectures grouped under their sections.

Shared modules:

| module | contents |
|---|---|
| `Domain` | entities of `src/types.ts` and the stored quiz state |
| `Storage` | browser `localStorage` as a map from key to stored value |
| `JsText` | the JavaScript string operations used: `trim`, `slice`, `includes`, `toLowerCase` |
| `Seqs` | `filter`, `find`, stable sort by order, set toggling |
| `Shuffle` | the Fisher–Yates swap loop, `splice` insertion and question permutation |
| `Wrappers` | `Option`, `Result`, `Min`, `Max` |

Modelling choices:

- **Randomness.** Every `Math.random()` call is an oracle argument:
  - the Fisher–Yates draws;
  - the new slot of the correct option;
  - the 30% "rebalance this one" decision;
  - the question permutation, given as a list of transpositions.
- **External services.** The assistant, the database and `JSON.parse` are function arguments or
  outcome values. React components become classes whose fields are the component's state
  variables.
- **The 2-second feedback dwell.** It is two steps. `HandleAnswerSubmit` shows the feedback and
  records the scored state. `DwellElapsed` is the timer firing: it commits the next state and
  writes storage.
- **The chat request.** It is split the same way. `Submit` runs up to the request. `ReceiveReply`
  is its continuation, applied to the transcript captured at submission.

## Model

| member | source | states |
|---|---|---|
| JsText.TrimStart | src/components/AIChat.tsx:74 | result is the suffix of the input that starts at its first non-whitespace character; every removed character is JavaScript whitespace |
| JsText.TrimEnd | src/components/AIChat.tsx:74 | result is the prefix of the input that ends at its last non-whitespace character; every removed character is JavaScript whitespace |
| JsText.BlankIffAllWhitespace | src/pages/CoursesPage.tsx:74 | `s.trim() === ''` holds exactly when every character of `s` is whitespace (both directions) |
| JsText.Slice | src/components/TestGenerator.tsx:51-52 | `slice(0, n)` is the prefix of length `min(length, n)` |
| Seqs.SubsequenceOfSelf | src/pages/CoursesPage.tsx:66-80 | an unfiltered list is a subsequence of itself |
| Seqs.Filter | src/pages/CoursesPage.tsx:66-80 | `Array.filter` keeps every occurrence of each element that passes and no occurrence of one that fails, in their order, and is never longer |
| Seqs.FilterIsDetermined | src/pages/CoursesPage.tsx:66-80 | any subsequence of the input that keeps exactly the passing occurrences is the filter's result, so the filter's contract fixes its result |
| Seqs.Find | src/pages/AdminPage.tsx:305 | `Array.find` is absent exactly when no element passes; otherwise it is the first element that passes |
| Seqs.FilterAll | src/pages/CoursesPage.tsx:69-74 | a filter every element passes returns the list unchanged |
| Seqs.FilterFusion | src/pages/CoursesPage.tsx:66-80 | two successive filters equal one filter by the conjunction |
| Seqs.FilterKeepsSorted | src/pages/CourseLecturesPage.tsx:94 | filtering a list sorted by order leaves it sorted |
| Seqs.FilterAppend | src/pages/CoursesPage.tsx:66-80 | filtering distributes over concatenation |
| Seqs.Toggle | src/pages/CourseLecturesPage.tsx:66-76 | the toggled id's membership flips; every other id keeps its membership |
| Seqs.ToggleTwice | src/pages/AdminPage.tsx:150-172 | toggling the same id twice restores the set |
| Seqs.MaxKey | src/pages/AdminPage.tsx:306-307 | `reduce(max, 0)` bounds every key, is non-negative, and is 0 or attained |
| Seqs.Insert | src/pages/LecturePage.tsx:53-54 | one insertion step of the sort adds exactly one element |
| Seqs.InsertKeepsSorted | src/pages/LecturePage.tsx:53-54 | inserting into a sorted list keeps it sorted |
| Seqs.SortByPermutes | src/pages/LecturePage.tsx:53-54 | the sort keeps exactly the elements of its input, with their multiplicities |
| Seqs.SortByIsSortedPermutation | src/pages/LecturePage.tsx:53-54 | `sort((a, b) => a.order - b.order)` yields an ascending permutation of its input |
| Seqs.FilterInsert | src/pages/LecturePage.tsx:53-54 | an insertion step keeps the relative order of elements with equal keys |
| Seqs.SortByIsStable | src/pages/LecturePage.tsx:53-54 | the sort is stable: elements with equal order keep their relative order |
| Storage.KeysAreDistinct | src/components/TestGenerator.tsx:188 | different lectures never share a `test_` key, and no `test_` key is a `chat_` key |
| Storage.LocalStorage.constructor | src/components/TestTaker.tsx:45 | storage starts empty |
| Storage.LocalStorage.SetItem | src/components/TestTaker.tsx:95 | `setItem` replaces the value under exactly that key |
| Storage.LocalStorage.RemoveItem | src/components/AIChat.tsx:232 | `removeItem` drops exactly that key |
| Shuffle.ShuffleInPlace | src/components/TestGenerator.tsx:167-170 | the in-place Fisher–Yates swap loop only rearranges the array (same multiset) |
| Shuffle.RemoveAt | src/components/TestGenerator.tsx:164 | filtering out position `k` removes exactly one occurrence of the element there |
| Shuffle.InsertAt | src/components/TestGenerator.tsx:174-175 | `splice(k, 0, x)` puts `x` at `k` and adds exactly one element |
| Shuffle.Rebalance | src/components/TestGenerator.tsx:163-181 | rebalancing keeps the question and explanation, keeps 4 options with the same multiset, and places the original correct text at the drawn slot, which becomes `correctIndex` |
| Shuffle.ApplySwaps | src/components/TestTaker.tsx:105 | the random-comparator sort is some permutation: same length, same multiset |
| TestGenerator.PrepareRequest | src/components/TestGenerator.tsx:46-52 | fails with the no-content error exactly when content and transcript are both empty; otherwise sends at most the first 3000 characters of content and at most the first 1500 of the transcript |
| TestGenerator.FirstOccurrence | src/components/TestGenerator.tsx:118-119 | the leftmost occurrence of a pattern at or after a position, or none |
| TestGenerator.FenceMatchAt | src/components/TestGenerator.tsx:118-119 | the fenced regex matches exactly when an opener is followed by a closing fence; the match starts at the leftmost opener that has one, and the lazy group stops at the first closing fence |
| TestGenerator.FirstIndexOf | src/components/TestGenerator.tsx:120 | the first `{` of the text, or none |
| TestGenerator.LastIndexOf | src/components/TestGenerator.tsx:120 | the last `}` of the text, or none |
| TestGenerator.BraceMatchAt | src/components/TestGenerator.tsx:120 | the greedy `{[\s\S]*}` match runs from the first `{` to the last `}` after it; there is no match exactly when no `{` precedes a `}` |
| TestGenerator.FirstMatch | src/components/TestGenerator.tsx:118-123 | the `\|\|` chain yields the first extractor that matches, and nothing only when none matches |
| TestGenerator.ExtractionOrder | src/components/TestGenerator.tsx:118-123 | the `json` fence wins, then the plain fence, then the bare object, using the group when non-empty and the whole match otherwise; with no match the whole reply is parsed |
| TestGenerator.FractionalIndexAccepted | src/components/TestGenerator.tsx:28-39 | the validator as written accepts a question whose `correctIndex` is 0.5, which no option button designates |
| TestGenerator.AcceptedQuestionIsAnswerable | src/components/TestGenerator.tsx:28-39 | under the corrected validator, some option button 0..3 designates the accepted `correctIndex` |
| TestGenerator.ToQuestion | src/components/TestGenerator.tsx:28-39 | an accepted entry becomes a question with the same prompt, explanation, four options and correct index |
| TestGenerator.CheckQuestions | src/components/TestGenerator.tsx:141-144 | corrected: passes exactly when every element, beyond the tenth too, is a valid question with a whole-number `correctIndex` |
| TestGenerator.ParseReply | src/components/TestGenerator.tsx:125-145 | corrected (whole-number `correctIndex`): succeeds exactly when the located list (`parsed.questions` or `parsed`) is a non-empty array of at least 10 valid questions, converting each element; a shorter list fails with its count |
| TestGenerator.FinalQuestions | src/components/TestGenerator.tsx:159-185 | keeps exactly the first ten questions, each unchanged or rebalanced as its draw says |
| TestGenerator.Generate | src/components/TestGenerator.tsx:44-194 | corrected (validates with `CheckQuestions`): empty input fails; succeeds exactly when the request is made, the service replies with content, and the reply parses; the result is a fresh attempt (counters zero, not completed, chosen language) built from the first ten parsed questions |
| TestGenerator.TestGeneratorWidget.constructor | src/components/TestGenerator.tsx:24-26 | the widget starts idle, without error, in English |
| TestGenerator.TestGeneratorWidget.SetLanguage | src/components/TestGenerator.tsx:26 | changes only the language |
| TestGenerator.TestGeneratorWidget.GenerateTest | src/components/TestGenerator.tsx:44-207 | corrected (validates with `CheckQuestions`): generation succeeds exactly when `Generate` does; storage changes only on success, and then only under `test_<lectureId>`, with a fresh attempt in the chosen language whose ten questions are the first ten accepted ones, each unchanged or rebalanced as its draw says; failure sets an error and leaves storage alone; empty input fails |
| TestTaker.AnswerKeepsConsistent | src/components/TestTaker.tsx:66-97 | an answer keeps the index in range and the score within the number of questions answered; the score grows by at most one; the attempt completes exactly on the last question |
| TestTaker.CountCorrect | src/components/TestTaker.tsx:69-77 | the count of correct answers never exceeds the number of answers, and equals it exactly when every answer is right |
| TestTaker.ReplayFromStart | src/components/TestTaker.tsx:66-97 | after `k` answers from the start, the attempt is on question `min(k, n-1)`, the score counts the right answers, and it is completed exactly when all `n` are answered |
| TestTaker.PassedIffAllCorrect | src/components/TestTaker.tsx:87-93 | a finished attempt is passed (a perfect score) exactly when every answer equals its question's `correctIndex` |
| TestTaker.Contents | src/components/TestTaker.tsx:108-128 | lists each question's prompt, correct text and explanation, in order |
| TestTaker.ContentsAfterSwaps | src/components/TestTaker.tsx:105 | permuting the questions permutes their contents the same way |
| TestTaker.Reshuffle | src/components/TestTaker.tsx:105-136 | a retry keeps the same number of questions in a permuted order; each keeps its prompt, explanation, option multiset and correct text, now at the drawn slot; the counters are reset and the language kept; the multiset of question contents is unchanged |
| TestTaker.TestTaker.constructor | src/components/TestTaker.tsx:27-34 | the initial state of the component: loading, nothing loaded |
| TestTaker.TestTaker.LoadTest | src/components/TestTaker.tsx:40-64 | a missing entry is the "no test found" error; a stored attempt is loaded, going straight to results when completed; an unreadable entry is the load error; loading and retrying end |
| TestTaker.TestTaker.SelectAnswer | src/components/TestTaker.tsx:254 | an option click selects it unless feedback is shown |
| TestTaker.TestTaker.HandleAnswerSubmit | src/components/TestTaker.tsx:66-79 | with no attempt or no selection nothing changes; otherwise feedback shows, `isCorrect` holds exactly when the selection is the current `correctIndex`, and the scored state waits for the dwell |
| TestTaker.TestTaker.DwellElapsed | src/components/TestTaker.tsx:80-96 | before the last question, it advances by one and clears the selection; on the last, it completes, shows results and reports `passed`; storage receives exactly the new state |
| TestTaker.TestTaker.Restart | src/components/TestTaker.tsx:104-144 | the reshuffled attempt replaces the state and the stored entry; selection, feedback and results are cleared |
| TestTaker.TestTaker.HandleRetryTestAsWritten | src/components/TestTaker.tsx:99-147 | as written: after a retry with a loaded attempt, `retrying` stays true |
| TestTaker.TestTaker.HandleRetryTest | src/components/TestTaker.tsx:99-147 | corrected: the retry restarts the attempt and persists it, and `retrying` is false afterwards; with no attempt it falls back to reloading |
| TestTaker.FailedQuizStore | src/components/TestTaker.tsx:213 | builds a store holding a completed one-question attempt with no correct answer |
| TestTaker.RetryScenarioAsWritten | src/components/TestTaker.tsx:213-226 | as written: retry, then fail again; the Retry button is offered but disabled |
| TestTaker.RetryScenario | src/components/TestTaker.tsx:213-226 | corrected: in the same scenario the Retry button is offered and enabled |
| AIChat.RedactOne | src/components/AIChat.tsx:54-63 | a message with an image keeps role, content and timestamp with the image replaced by the placeholder; others are unchanged |
| AIChat.Redact | src/components/AIChat.tsx:54-63 | redaction keeps length and order, message by message |
| AIChat.RedactedHoldsNoImageData | src/components/AIChat.tsx:154-163 | after redaction no message holds image data |
| AIChat.RedactIdempotent | src/components/AIChat.tsx:54-63 | redacting twice is the same as once |
| AIChat.RedactAppend | src/components/AIChat.tsx:154-163 | redacting the transcript plus new messages is redacting each part |
| AIChat.BuildRequest | src/components/AIChat.tsx:100-128 | the request is the last `min(n, 5)` earlier messages as role and text, in order, then the current message; at most 6 entries |
| AIChat.UserMessage | src/components/AIChat.tsx:79-89 | with an image and preview, the message carries the image and the text, or the default prompt when the text is blank; otherwise it is the typed text |
| AIChat.AssistantReply | src/components/AIChat.tsx:141-147 | an answer is appended with the fallback text when empty; a failure appends the error reply; no response appends nothing |
| AIChat.UploadProblem | src/components/AIChat.tsx:194-203 | an upload is accepted exactly when it is at most 5 MiB and its type starts with `image/`; size is checked first |
| AIChat.AIChat.constructor | src/components/AIChat.tsx:19-24 | the chat starts empty and idle |
| AIChat.AIChat.PersistMessages | src/components/AIChat.tsx:50-70 | a non-empty transcript is stored redacted under `chat_<lectureId>`; an empty one writes nothing |
| AIChat.AIChat.LoadSaved | src/components/AIChat.tsx:38-47 | a stored transcript is loaded; otherwise nothing changes |
| AIChat.AIChat.SetMessage | src/components/AIChat.tsx:19 | typing changes only the draft |
| AIChat.AIChat.Submit | src/components/AIChat.tsx:72-128 | blocked when loading, or when the draft is blank with no image; otherwise it appends the user message, clears the draft and image, starts loading, persists, and sends the request window: the last `min(n, 5)` earlier messages as role and text, in order, then the new one |
| AIChat.AIChat.Send | src/components/AIChat.tsx:91-128 | an unblocked submission appends the message, clears the draft and image, starts loading, persists the redacted transcript, and returns the window of the last `min(n, 5)` earlier messages as role and text, in order, plus the new one |
| AIChat.AIChat.ReceiveReply | src/components/AIChat.tsx:141-187 | appends the assistant reply (fallback or error text), ends loading, sets the error on failure, persists, and exports the redacted transcript for a signed-in user after an answer |
| AIChat.AIChat.HandleImageUpload | src/components/AIChat.tsx:189-219 | a rejected file sets its error and is not attached; an accepted one is attached and clears the error |
| AIChat.AIChat.ReaderFinished | src/components/AIChat.tsx:209-216 | a read sets the preview; a read error detaches the file, sets the error, and leaves no preview, since `loadend` follows the error with a null result |
| AIChat.AIChat.RemoveImage | src/components/AIChat.tsx:221-227 | detaches the image and its preview |
| AIChat.AIChat.ClearChat | src/components/AIChat.tsx:229-234 | after confirmation the transcript is emptied and its stored entry removed; otherwise nothing changes |
| CoursesPage.FilterCourses | src/pages/CoursesPage.tsx:65-83 | the result keeps the input order and adds nothing; a course stays exactly when it is in the selected semester (any for "all") and the query is blank or its lower-cased, untrimmed form occurs in the lower-cased title or non-empty description |
| CoursesPage.NoFilterListsAll | src/pages/CoursesPage.tsx:69-74 | "all" semesters with a blank query lists every course |
| CoursesPage.QueryIsNotTrimmed | src/pages/CoursesPage.tsx:75-79 | a non-blank query that starts with a blank lists no course whose title and description hold no blank, under any semester filter: the query is matched untrimmed |
| CoursesPage.AvailableSemesters | src/pages/CoursesPage.tsx:50-55 | the semesters are exactly `1..max(4, largest semester)`, ascending and contiguous |
| AdminPage.PrepareCourses | src/pages/AdminPage.tsx:128-132 | every loaded course is prepared, in order |
| AdminPage.PreparedCourseIsSorted | src/pages/AdminPage.tsx:128-132 | each prepared course has its sections and lectures sorted ascending by order, as permutations of the fetched ones, with everything else unchanged |
| AdminPage.NextOrder | src/pages/AdminPage.tsx:305-314 | a new order is `1 + max(0, existing orders)`: at least 1 and above every existing order |
| AdminPage.MergeCourse | src/pages/AdminPage.tsx:257-259 | `{...course, ...row}` takes the row's columns and keeps sections and lectures |
| AdminPage.MergeSection | src/pages/AdminPage.tsx:378-379 | `{...section, ...row}` takes the row's columns and keeps the lectures |
| AdminPage.UpdateCourses | src/pages/AdminPage.tsx:257-259 | only the courses with the id are changed |
| AdminPage.AppendSection | src/pages/AdminPage.tsx:322-327 | the new section goes after the existing ones |
| AdminPage.UpdateSection | src/pages/AdminPage.tsx:373-383 | only the sections with the id are merged; everything else is unchanged |
| AdminPage.WithoutSection | src/pages/AdminPage.tsx:406-414 | removes exactly the sections with the id, keeping every copy of the rest, in order |
| AdminPage.RemoveSection | src/pages/AdminPage.tsx:406-414 | the section is removed from every course, every other section is kept with its copies in order; courses without it are unchanged |
| AdminPage.AddLecture | src/pages/AdminPage.tsx:468-491 | the new lecture is appended to the target section, or to the course when there is no section |
| AdminPage.ReplaceLecture | src/pages/AdminPage.tsx:539-571 | replaces exactly the lectures with the id, in place |
| AdminPage.WithoutLecture | src/pages/AdminPage.tsx:594-622 | removes exactly the lectures with the id, keeping every copy of the rest, in order |
| AdminPage.MapSectionLectures | src/pages/AdminPage.tsx:539-571 | applies a change to every section's lecture list and nothing else |
| AdminPage.MapSectionsHaving | src/pages/AdminPage.tsx:539-571 | changes only the sections that hold the lecture |
| AdminPage.ChangeLectureAsWritten | src/pages/AdminPage.tsx:539-571 | as written: a course whose direct list holds the lecture changes only there; otherwise the sections holding it change |
| AdminPage.DeletedLectureStaysInSection | src/pages/AdminPage.tsx:594-622 | as written, deleting a sectioned lecture of a loaded course leaves it in its section |
| AdminPage.UpdatedLectureStaleInSection | src/pages/AdminPage.tsx:539-571 | as written, updating a sectioned lecture of a loaded course leaves the old lecture in its section |
| AdminPage.DeleteLecture | src/pages/AdminPage.tsx:594-622 | corrected: the course list and every section's list lose exactly the lecture (as `WithoutLecture`), and nothing else changes |
| AdminPage.UpdateLecture | src/pages/AdminPage.tsx:539-571 | corrected: the lecture is replaced in the course list and in every section |
| AdminPage.UpdateKeepsSectionedLecturesListed | src/pages/AdminPage.tsx:539-571 | the corrected update keeps every sectioned lecture in the course list |
| AdminPage.DeleteKeepsSectionedLecturesListed | src/pages/AdminPage.tsx:594-622 | the corrected delete keeps every sectioned lecture in the course list |
| AdminPage.CourseInsertFor | src/pages/AdminPage.tsx:198-207 | the inserted course takes the form's fields, defaulting the semester to 1 and the thumbnail to the stock image |
| AdminPage.SectionInsertFor | src/pages/AdminPage.tsx:305-320 | a new section's order is above every existing section order of its course |
| AdminPage.LectureInsertFor | src/pages/AdminPage.tsx:440-466 | a new lecture's order is above every order in its target section, or in its course when there is no section; the section id is kept only when non-empty |
| AdminPage.AdminConsole.constructor | src/pages/AdminPage.tsx:27-31 | the console starts with no courses and nothing expanded |
| AdminPage.AdminConsole.LoadCourses | src/pages/AdminPage.tsx:108-140 | a fetch stores the prepared courses; a failure sets the load error and keeps the courses |
| AdminPage.AdminConsole.ToggleCourseExpanded | src/pages/AdminPage.tsx:150-160 | flips only that course id |
| AdminPage.AdminConsole.ToggleSectionExpanded | src/pages/AdminPage.tsx:162-172 | flips only that section id |
| AdminPage.AdminConsole.HandleAddCourse | src/pages/AdminPage.tsx:185-234 | an empty title or no signed-in user is an error with no insert; a successful insert appends the course and expands it; a failed one sets the error and changes nothing |
| AdminPage.AdminConsole.HandleUpdateCourse | src/pages/AdminPage.tsx:236-267 | an empty title is an error; a returned row is merged into the courses with the id; a failure changes nothing |
| AdminPage.AdminConsole.HandleDeleteCourse | src/pages/AdminPage.tsx:269-294 | after confirmation and deletion, exactly the courses with the id are removed, every copy of the others is kept in order, and the id leaves the expanded set |
| AdminPage.AdminConsole.HandleAddSection | src/pages/AdminPage.tsx:297-352 | an empty title is an error; the insert is numbered after the course's sections; a returned row is appended to its course and expanded |
| AdminPage.AdminConsole.HandleUpdateSection | src/pages/AdminPage.tsx:354-391 | an empty title is an error; a returned row is merged into the sections with the id |
| AdminPage.AdminConsole.HandleDeleteSection | src/pages/AdminPage.tsx:393-426 | after confirmation and deletion the section leaves every course and the expanded set |
| AdminPage.AdminConsole.HandleAddLecture | src/pages/AdminPage.tsx:429-516 | an empty title is an error; the insert is numbered after its siblings; a returned row is appended to its section or course |
| AdminPage.AdminConsole.HandleUpdateLecture | src/pages/AdminPage.tsx:518-579 | an empty title is an error; a returned row replaces the lecture in every course list and section (corrected) |
| AdminPage.AdminConsole.HandleDeleteLecture | src/pages/AdminPage.tsx:581-627 | after confirmation and deletion the lecture leaves every course list and section (corrected) |
| LecturePage.OrderedLectures | src/pages/LecturePage.tsx:53-54 | the lectures sorted ascending by order, as a permutation |
| LecturePage.IndexOf | src/pages/LecturePage.tsx:124 | `findIndex`: the first position with the id, or -1 exactly when there is none |
| LecturePage.Previous | src/pages/LecturePage.tsx:125 | a previous lecture exists exactly when the index is positive, and it is the one before |
| LecturePage.Next | src/pages/LecturePage.tsx:126-128 | a next lecture exists exactly when the index is below length - 1, and it is the one after |
| LecturePage.NeighboursOfListedLecture | src/pages/LecturePage.tsx:124-128 | for a listed lecture, the neighbours are the lectures around its first occurrence |
| LecturePage.MissingLectureLinksToFirst | src/pages/LecturePage.tsx:124-128 | for an unlisted lecture there is no previous lecture, and the next one is the first lecture |
| LecturePage.OnTestComplete | src/pages/LecturePage.tsx:130-134 | navigation happens exactly when the test is passed and a next lecture exists, and it goes to that lecture |
| LecturePage.NextButtonGating | src/pages/LecturePage.tsx:205 | with a server test, the Next button needs a passing grade; without one it shows exactly when a next lecture exists; when shown, passing navigates to it |
| LecturePage.ChooseTestWidget | src/pages/LecturePage.tsx:300-336 | a server test shows the grade when graded and the taker otherwise; failing that, a stored quiz shows the taker; otherwise the generator receives the lecture's text |
| CourseLecturesPage.PrepareCourse | src/pages/CourseLecturesPage.tsx:41-46 | sections and lectures sorted ascending by order, as permutations, everything else unchanged |
| CourseLecturesPage.SectionIds | src/pages/CourseLecturesPage.tsx:51-53 | the set of ids holds exactly the sections' ids |
| CourseLecturesPage.SameSectionsSameIds | src/pages/CourseLecturesPage.tsx:41-53 | sorting the sections does not change the set of their ids |
| CourseLecturesPage.UnsectionedLectures | src/pages/CourseLecturesPage.tsx:94 | exactly the lectures with no or an empty section id, every copy, in course order |
| CourseLecturesPage.SectionLectures | src/pages/CourseLecturesPage.tsx:124-126 | exactly the lectures whose section id is the section's, every copy, in course order |
| CourseLecturesPage.VisibleSections | src/pages/CourseLecturesPage.tsx:123-128 | exactly the sections with at least one lecture, every copy, in order |
| CourseLecturesPage.WhereALectureIsShown | src/pages/CourseLecturesPage.tsx:94-128 | a lecture is listed apart exactly when it has no section id; under a drawn section exactly when it names it; a lecture naming a course section is always shown under it; a lecture naming no section of the course is shown nowhere |
| CourseLecturesPage.GroupsAreSorted | src/pages/CourseLecturesPage.tsx:94-126 | both groups keep ascending order |
| CourseLecturesPage.CourseOutline.constructor | src/pages/CourseLecturesPage.tsx:11-13 | nothing loaded, nothing expanded |
| CourseLecturesPage.CourseOutline.Load | src/pages/CourseLecturesPage.tsx:38-53 | the course is stored sorted and every section id is expanded |
| CourseLecturesPage.CourseOutline.ToggleSection | src/pages/CourseLecturesPage.tsx:66-76 | flips only that section id and keeps the course |

## Left out

- Network, database and authentication calls are not modelled; their results are arguments. This covers Supabase queries, auth sessions and subscriptions, and the `fetchCourses`/`executeQuery` retry loops with their timed backoff in `src/lib/supabase.ts`.
- The OpenAI wrapper (`src/lib/openai.ts`) and the prompt wording are not modelled; the assistant is an argument returning an outcome.
- The `Promise.race` timeouts are left out; a timeout is one outcome of the service argument.
- `JSON.parse` is an abstract partial function. Stored text that does not parse is represented by an entry of the wrong kind.
- The probability of a rebalance, and the uniformity of the shuffles and of the random-comparator sort, are not modelled. Each draw is an arbitrary valid oracle value.
- The logged `positionCounts` histogram is not modelled; it affects nothing.
- The PDF export of the chat (page geometry, html2canvas, jsPDF) is not modelled.
- Rendering, form-field state, scroll timers, video embedding, the module uploader, module lists, course cards and routing are not modelled.
- TestTaker.TestTaker.DwellElapsed: the 2-second feedback timer is an explicit step. Interleavings of other handlers with a pending timer are not constrained beyond the disabled buttons the state records.
- AIChat.AIChat.ReceiveReply: a failure of the sign-in lookup after an answer would append the error reply; the model treats the lookup as a plain `signedIn` argument.
- Concurrency between asynchronous handlers, other than the split of chat submission into `Submit`/`ReceiveReply`, is not modelled. Each admin handler applies its backend result in one step.
- JsText.ToLower folds only ASCII letters; the full Unicode case mapping of `toLowerCase` is not modelled.
- JavaScript strings are UTF-16 code-unit sequences; the model uses `seq<char>`.
- `validateQuestions` does not check that the four options are distinct; the model follows the code.
- TestGenerator.CheckQuestions: validates with the corrected check, which also requires a whole-number `correctIndex`; a reply whose `correctIndex` is, say, 0.5 is accepted by the code as written but rejected here (see Findings; `IsQuestionAsWritten` is the check as written).
- TestGenerator.ParseReply: inherits the corrected check from `CheckQuestions`, so a reply the code stores with a fractional `correctIndex` fails here with the format error.
- TestGenerator.Generate: succeeds only for replies the corrected check accepts; the attempt the code would store with a fractional `correctIndex` is not produced.
- TestGenerator.TestGeneratorWidget.GenerateTest: stores only attempts the corrected check accepts, so storage is left unchanged where the code would store an attempt with a fractional `correctIndex`.

## Findings

| source | as written | input that shows it | evidently intended | confidence | as-written member | corrected member |
|---|---|---|---|---|---|---|
| src/components/TestGenerator.tsx:28-39 | `correctIndex` only has to be a number in [0, 4) | a reply whose questions have `"correctIndex": 0.5` is accepted and stored; no option button index equals 0.5, so in the attempt as stored that question cannot be answered correctly and the attempt cannot be passed (a later rebalance or retry replaces the index with a whole slot) | `correctIndex` must be an integer 0..3 | not executed | TestGenerator.FractionalIndexAccepted | TestGenerator.AcceptedQuestionIsAnswerable |
| src/components/TestTaker.tsx:99-147 | `setRetrying(true)` is reset only by `loadTest`, which the success branch does not call | fail a quiz, press Retry, fail again: the results screen offers Retry with `disabled={retrying}` true, so it cannot be pressed | `retrying` is false once the new attempt is set up | not executed | TestTaker.RetryScenarioAsWritten | TestTaker.RetryScenario |
| src/pages/AdminPage.tsx:594-622 | the lecture is removed from the course's direct list when present there, and then the sections are left alone | the loaded course lists a sectioned lecture both in `lectures` and in its section (the render filters `!l.section_id` at 1392-1395); deleting it leaves it in the section shown | removed from the direct list and from every section | not executed | AdminPage.DeletedLectureStaysInSection | AdminPage.DeleteLecture |
| src/pages/AdminPage.tsx:539-571 | the updated row replaces the lecture in the direct list when present there, and then the sections are left alone | the same loaded course: after editing a sectioned lecture, its section still shows the old title | replaced in the direct list and in every section | not executed | AdminPage.UpdatedLectureStaleInSection | AdminPage.UpdateKeepsSectionedLecturesListed |
