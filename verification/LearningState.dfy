/** The learning state of one enrollment and its transitions. */
module LearningState {
  import opened Options

  type Time = nat

  datatype LessonState = LessonState(completedAt: Option<Time>, firstCompletedAt: Option<Time>)

  datatype State = State(reading: Option<string>, lessons: map<string, LessonState>, completedAt: Option<Time>)

  const EMPTY := State(None, map[], None)

  predicate Completed(s: State, lesson: string) {
    lesson in s.lessons && s.lessons[lesson].completedAt.Some?
  }

  /** The lesson was completed at some time, even if it has been unmarked since. */
  predicate EverCompleted(s: State, lesson: string) {
    lesson in s.lessons && s.lessons[lesson].firstCompletedAt.Some?
  }

  function SetReadingPosition(s: State, lesson: string): State {
    s.(reading := Some(lesson))
  }

  function SetLessonCompletion(s: State, lesson: string, completed: bool, now: Time): State {
    var completedAt := if completed then Some(now) else None;
    var first := if EverCompleted(s, lesson) then s.lessons[lesson].firstCompletedAt else completedAt;
    s.(lessons := s.lessons[lesson := LessonState(completedAt, first)])
  }

  function WithCourseCompletion(s: State, now: Time): State {
    s.(completedAt := Some(now))
  }

  /** An empty pointer or replacement counts as absent, as it does in the source. */
  function RemapReadingPosition(s: State, remap: map<string, string>): State {
    if s.reading.Some? && s.reading.value != "" && s.reading.value in remap && remap[s.reading.value] != ""
    then s.(reading := Some(remap[s.reading.value]))
    else s
  }
}
