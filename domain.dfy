/** The records the application passes around: the rows of the course
    catalogue (src/types.ts), the chat transcript entries, and the quiz kept in
    browser storage per lecture. */
module Domain {
  import opened Wrappers

  /** The display language chosen when a quiz is generated: 'en' or 'id'. */
  datatype Language = En | Id

  /** One multiple-choice question as the quiz components store it. */
  datatype Question = Question(question: string, options: seq<string>, correctIndex: int, explanation: string)

  /** The shape every stored question has: four options and a correct index
      that points at one of them. */
  predicate WellFormed(q: Question) {
    |q.options| == 4 && 0 <= q.correctIndex < |q.options|
  }

  /** The element type of a validated question list. */
  type ValidQuestion = q: Question | WellFormed(q) witness Question("", ["", "", "", ""], 0, "")

  /** The text of the correct option. */
  function CorrectText(q: ValidQuestion): string {
    q.options[q.correctIndex]
  }

  /** What a reshuffle must keep of a question: its prompt, the text of its
      correct option and its explanation. */
  function Content(q: ValidQuestion): (string, string, string) {
    (q.question, CorrectText(q), q.explanation)
  }

  /** The quiz state kept under `test_<lectureId>`. */
  datatype QuizState = QuizState(
    questions: seq<ValidQuestion>,
    currentQuestion: int,
    correctAnswers: int,
    completed: bool,
    language: Language)

  /** A perfect score, the only passing condition. */
  predicate Passed(s: QuizState) {
    s.correctAnswers == |s.questions|
  }

  datatype ChatRole = User | Assistant

  /** An entry of the chat transcript; `image` holds a data URL when present. */
  datatype ChatMessage = ChatMessage(role: ChatRole, content: string, timestamp: string, image: Option<string>)

  /** A lecture row; `sectionId` is `section_id`, absent for a lecture that
      belongs to no section. */
  datatype Lecture = Lecture(
    id: string, title: string, videoUrl: string, content: string, transcript: string,
    order: int, sectionId: Option<string>, courseId: string)

  datatype Section = Section(
    id: string, title: string, description: string, order: int, courseId: string,
    lectures: seq<Lecture>)

  datatype Course = Course(
    id: string, title: string, description: string, semester: int, thumbnail: string,
    lectures: seq<Lecture>, sections: seq<Section>)

  /** A user's grade for a lecture's server-side test. */
  datatype Grade = Grade(score: int, passed: bool)

  function LectureOrder(l: Lecture): int { l.order }

  function SectionOrder(s: Section): int { s.order }
}
