/**
 * The state logic of `app.py` with the Streamlit calls taken out: the
 * study-mode cursor, the command-type classifier, the English lookup
 * table, the test-mode question/score state machine and its grade bands.
 * Each button press or selection is one method call.
 */
module App {
  import opened Text
  import opened AudioGenerator

  // ---------------------------------------------------------------------
  // Command type
  // ---------------------------------------------------------------------

  datatype CommandType = BasicLightControl | PassingScenario | Overtaking | Parking | DrivingScenario
  {
    function Name(): string {
      match this
      case BasicLightControl => "Basic Light Control"
      case PassingScenario => "Passing Scenario"
      case Overtaking => "Overtaking"
      case Parking => "Parking"
      case DrivingScenario => "Driving Scenario"
    }
  }

  const Headlights: string := "前照灯"
  const TurnOff: string := "关闭"
  const PassThrough: string := "通过"
  const Overtake: string := "超越"
  const Park: string := "停车"

  /** The command type shown for a lesson, by substring checks on its Chinese text in a fixed order. */
  function ClassifyCommand(chinese: string): CommandType {
    if Contains(chinese, Headlights) || Contains(chinese, TurnOff) then BasicLightControl
    else if Contains(chinese, PassThrough) then PassingScenario
    else if Contains(chinese, Overtake) then Overtaking
    else if Contains(chinese, Park) then Parking
    else DrivingScenario
  }

  /**
   * Each type is chosen exactly when its keyword occurs in the text and no
   * keyword of an earlier type does; a light keyword wins over all others.
   */
  lemma CommandTypePriority(chinese: string)
    ensures var t := ClassifyCommand(chinese);
      var basic := Contains(chinese, Headlights) || Contains(chinese, TurnOff);
      && (t == BasicLightControl <==> basic)
      && (t == PassingScenario <==> !basic && Contains(chinese, PassThrough))
      && (t == Overtaking <==> !basic && !Contains(chinese, PassThrough) && Contains(chinese, Overtake))
      && (t == Parking <==>
            !basic && !Contains(chinese, PassThrough) && !Contains(chinese, Overtake) && Contains(chinese, Park))
      && (t == DrivingScenario <==>
            !basic && !Contains(chinese, PassThrough) && !Contains(chinese, Overtake) && !Contains(chinese, Park))
  {
  }

  /** A keyword found anywhere in the text decides the type, whatever else the text holds. */
  lemma {:induction false} KeywordAnywhere(prefix: string, keyword: string, suffix: string)
    ensures Contains(prefix + keyword + suffix, keyword)
  {
    var s := prefix + keyword + suffix;
    assert OccursAt(s, keyword, |prefix|) by {
      assert s[|prefix|..|prefix| + |keyword|] == keyword;
    }
    ContainsIff(s, keyword);
  }

  /** A command mentioning both passing and parking counts as passing; one that turns lights off as basic. */
  lemma CommandTypeExamples(before: string, between: string, after: string)
    ensures ClassifyCommand(before + PassThrough + between + Park + after) == PassingScenario
            || ClassifyCommand(before + PassThrough + between + Park + after) == BasicLightControl
    ensures ClassifyCommand(before + TurnOff + after) == BasicLightControl
  {
    KeywordAnywhere(before, PassThrough, between + Park + after);
    assert before + PassThrough + between + Park + after == before + PassThrough + (between + Park + after);
    KeywordAnywhere(before, TurnOff, after);
  }

  // ---------------------------------------------------------------------
  // English translation lookup
  // ---------------------------------------------------------------------

  /** The fixed translations shown in study mode, keyed by lesson id. */
  const EnglishTranslations: map<LessonId, string> := map[
    Number(1) := "Please turn on the headlights",
    Number(2) := "Following a vehicle ahead at close range in the same direction",
    Number(3) := "Meeting oncoming motor vehicles",
    Number(4) := "Passing through traffic light controlled intersections",
    Number(5) := "Driving on well-lit roads with street lights",
    Number(6) := "Passing through sharp curves",
    Label("6a") := "Passing through slopes",
    Label("6b") := "Crossing arched bridges",
    Label("6c") := "Crossing pedestrian crosswalks",
    Label("6d") := "Passing through uncontrolled intersections",
    Number(7) := "Overtaking the vehicle ahead",
    Number(8) := "Driving on unlit roads",
    Label("8a") := "Driving on poorly lit roads",
    Number(9) := "Temporary roadside parking",
    Number(10) := "Please turn off all lights and start moving"
  ]

  /** The table entry for the lesson's id, or its literal gloss when the table has none. */
  function EnglishText(l: Lesson): string {
    if l.id in EnglishTranslations then EnglishTranslations[l.id] else l.literal
  }

  /**
   * For a record built from a match: a digit-only id from 1 to 10 finds its
   * entry whatever its zero padding (`07` like `7`), the text ids 6a-6d and
   * 8a find theirs, and every other id falls back to the stripped gloss.
   */
  lemma EnglishTextOfEntry(e: Entry, source: string)
    ensures var text := EnglishText(BuildLesson(e, source));
      && (IsDigits(e.id) && 1 <= DigitsValue(e.id) <= 10 ==>
            Number(DigitsValue(e.id)) in EnglishTranslations && text == EnglishTranslations[Number(DigitsValue(e.id))])
      && (IsDigits(e.id) && !(1 <= DigitsValue(e.id) <= 10) ==> text == Strip(e.literal))
      && (!IsDigits(e.id) && e.id in TextKeys ==>
            Label(e.id) in EnglishTranslations && text == EnglishTranslations[Label(e.id)])
      && (!IsDigits(e.id) && e.id !in TextKeys ==> text == Strip(e.literal))
  {
    var l := BuildLesson(e, source);
    assert l.id == DisplayId(e.id) && l.literal == Strip(e.literal);
    TranslationKeys(l.id);
    if IsDigits(e.id) {
      assert l.id == Number(DigitsValue(e.id));
    } else {
      assert l.id == Label(e.id);
    }
  }

  /** The text ids the table knows. */
  const TextKeys: set<string> := {"6a", "6b", "6c", "6d", "8a"}

  /** The table covers the numeric ids 1 to 10 and the text ids 6a, 6b, 6c, 6d and 8a, and nothing else. */
  lemma TranslationKeys(id: LessonId)
    ensures id in EnglishTranslations <==> (id.Number? && 1 <= id.value <= 10) || (id.Label? && id.text in TextKeys)
  {
  }

  // ---------------------------------------------------------------------
  // Answer check and grade
  // ---------------------------------------------------------------------

  /** The six light actions offered for every test question. */
  const AnswerOptions: seq<string> := [
    "Low beam", "High beam", "Alternating beams", "Turn signals + beams", "Width + alarm lights", "Turn off all lights"
  ]

  /** An answer is accepted when, lower-cased, it occurs in the lower-cased required action. */
  predicate IsCorrect(answer: string, english: string) {
    Contains(Lower(english), Lower(answer))
  }

  /** Accepted exactly when the lower-cased answer occurs at some position of the lower-cased action. */
  lemma IsCorrectMeaning(answer: string, english: string)
    ensures IsCorrect(answer, english) <==> exists i :: OccursAt(Lower(english), Lower(answer), i)
  {
    ContainsIff(Lower(english), Lower(answer));
  }

  /** An answer written verbatim inside the required action is accepted. */
  lemma VerbatimAnswerIsCorrect(answer: string, english: string)
    requires Contains(english, answer)
    ensures IsCorrect(answer, english)
  {
    ContainsIff(english, answer);
    var i :| OccursAt(english, answer, i);
    LowerSlice(english, i, i + |answer|);
    assert OccursAt(Lower(english), Lower(answer), i);
    ContainsIff(Lower(english), Lower(answer));
  }

  /** The check ignores ASCII case on both sides. */
  lemma IsCorrectIgnoresCase(answer: string, english: string)
    ensures IsCorrect(Lower(answer), Lower(english)) == IsCorrect(answer, english)
  {
    LowerIdempotent(answer);
    LowerIdempotent(english);
  }

  datatype Grade = Excellent | Good | KeepStudying

  /**
   * The final message band: at least 80 percent, at least 60 percent, or
   * below; the percentage comparisons are cross-multiplied into integers.
   */
  function GradeOf(score: nat, questions: nat): Grade
    requires questions > 0
  {
    if score * 100 >= 80 * questions then Excellent
    else if score * 100 >= 60 * questions then Good
    else KeepStudying
  }

  /** Position of a band, from worst to best. */
  function Rank(g: Grade): nat {
    match g
    case KeepStudying => 0
    case Good => 1
    case Excellent => 2
  }

  /** The three bands partition the scores, at 80 and 60 percent. */
  lemma GradeBands(score: nat, questions: nat)
    requires questions > 0
    ensures GradeOf(score, questions) == Excellent <==> score * 100 >= 80 * questions
    ensures GradeOf(score, questions) == Good <==> 60 * questions <= score * 100 < 80 * questions
    ensures GradeOf(score, questions) == KeepStudying <==> score * 100 < 60 * questions
  {
  }

  /** A higher score never earns a lower band. */
  lemma GradeMonotone(s1: nat, s2: nat, questions: nat)
    requires questions > 0 && s1 <= s2
    ensures Rank(GradeOf(s1, questions)) <= Rank(GradeOf(s2, questions))
  {
  }

  /** 4 of 5 is excellent, 3 of 5 good, 2 of 5 not yet; a full score is always excellent. */
  lemma GradeExamples(questions: nat)
    requires questions > 0
    ensures GradeOf(4, 5) == Excellent && GradeOf(3, 5) == Good && GradeOf(2, 5) == KeepStudying
    ensures GradeOf(questions, questions) == Excellent && GradeOf(0, questions) == KeepStudying
  {
  }

  // ---------------------------------------------------------------------
  // Question order
  // ---------------------------------------------------------------------

  /** `list(range(n))`. */
  function Indices(n: nat): (r: seq<nat>)
    ensures |r| == n
  {
    if n == 0 then [] else Indices(n - 1) + [n - 1]
  }

  /** `order` is some shuffle of `list(range(n))`. */
  ghost predicate IsShuffleOf(order: seq<nat>, n: nat) {
    multiset(order) == multiset(Indices(n))
  }

  /** Every index from 0 to n-1 occurs once in `list(range(n))`, and no other value occurs. */
  lemma {:induction false} IndicesCount(n: nat, x: nat)
    ensures multiset(Indices(n))[x] == if x < n then 1 else 0
  {
    if n > 0 {
      var last: nat := n - 1;
      IndicesCount(last, x);
      var prefix := Indices(last);
      assert Indices(n) == prefix + [last];
      assert multiset(Indices(n)) == multiset(prefix) + multiset([last]);
    }
  }

  /** A shuffle of `list(range(n))` has `n` entries, each a valid lesson index. */
  lemma ShuffleEntries(order: seq<nat>, n: nat)
    requires IsShuffleOf(order, n)
    ensures |order| == n
    ensures forall i :: 0 <= i < |order| ==> order[i] < n
  {
    assert |multiset(order)| == |order|;
    assert |multiset(Indices(n))| == n;
    forall i | 0 <= i < |order| ensures order[i] < n {
      var x := order[i];
      assert x in multiset(order);
      IndicesCount(n, x);
    }
  }

  /** Over a complete test, every lesson is asked, and none twice. */
  lemma EachLessonAskedOnce(order: seq<nat>, n: nat)
    requires IsShuffleOf(order, n)
    ensures forall k :: 0 <= k < n ==> k in order
    ensures forall i, j :: 0 <= i < j < |order| ==> order[i] != order[j]
  {
    forall k | 0 <= k < n ensures k in order {
      IndicesCount(n, k);
      assert k in multiset(order);
    }
    forall i, j | 0 <= i < j < |order| ensures order[i] != order[j] {
      var x := order[i];
      assert order == order[..j] + order[j..];
      assert multiset(order) == multiset(order[..j]) + multiset(order[j..]);
      assert order[..j][i] == x;
      assert x in multiset(order[..j]);
      if order[j] == x {
        assert order[j..][0] == x;
        assert x in multiset(order[j..]);
        IndicesCount(n, x);
        assert false;
      }
    }
  }

  // ---------------------------------------------------------------------
  // Study mode
  // ---------------------------------------------------------------------

  /** The `selected_index` cursor of study mode over the loaded lessons. */
  class StudyCursor {
    const lessons: seq<Lesson>
    var selectedIndex: int

    ghost predicate Valid()
      reads this
    {
      0 <= selectedIndex < |lessons|
    }

    /** Study mode opens at the first lesson; it is only reached with at least one lesson. */
    constructor (lessons: seq<Lesson>)
      requires |lessons| > 0
      ensures Valid() && this.lessons == lessons && selectedIndex == 0
    {
      this.lessons := lessons;
      selectedIndex := 0;
    }

    /** Whether the "Previous" button is shown. */
    predicate CanGoPrevious()
      reads this
    {
      selectedIndex > 0
    }

    /** Whether the "Next" button is shown. */
    predicate CanGoNext()
      reads this
    {
      selectedIndex < |lessons| - 1
    }

    /** The "Previous" button, pressed while it is shown. */
    method Previous()
      requires Valid() && CanGoPrevious()
      modifies this
      ensures Valid()
      ensures selectedIndex == old(selectedIndex) - 1
    {
      selectedIndex := selectedIndex - 1;
    }

    /** The "Next" button, pressed while it is shown. */
    method Next()
      requires Valid() && CanGoNext()
      modifies this
      ensures Valid()
      ensures selectedIndex == old(selectedIndex) + 1
    {
      selectedIndex := selectedIndex + 1;
    }

    /** The "Jump to Lesson" selector, whose choices are `range(len(lessons))`. */
    method Jump(choice: int)
      requires Valid() && 0 <= choice < |lessons|
      modifies this
      ensures Valid()
      ensures selectedIndex == choice
      ensures choice == old(selectedIndex) ==> unchanged(this)
    {
      if choice != selectedIndex {
        selectedIndex := choice;
      }
    }

    /** The lesson on display. */
    function Current(): (l: Lesson)
      reads this
      requires Valid()
      ensures l in lessons
    {
      lessons[selectedIndex]
    }

    /**
     * The sidebar progress `(selected_index + 1) / len(lessons)` as a
     * numerator and denominator: strictly above 0 and at most 1, and 1
     * exactly at the last lesson.
     */
    function Progress(): (p: (nat, nat))
      reads this
      requires Valid()
      ensures 0 < p.0 <= p.1
      ensures p.0 == p.1 <==> !CanGoNext()
    {
      (selectedIndex + 1, |lessons|)
    }
  }

  /** Three lessons: two presses of "Next" reach the last one, where "Next" is no longer shown. */
  method StudyWalkthrough(lessons: seq<Lesson>)
    requires |lessons| == 3
  {
    var cursor := new StudyCursor(lessons);
    assert !cursor.CanGoPrevious() && cursor.CanGoNext();
    cursor.Next();
    cursor.Next();
    assert cursor.Current() == lessons[2] && !cursor.CanGoNext();
    cursor.Previous();
    assert cursor.selectedIndex == 1;
    cursor.Jump(0);
    assert cursor.Current() == lessons[0] && !cursor.CanGoPrevious();
  }

  // ---------------------------------------------------------------------
  // Test mode
  // ---------------------------------------------------------------------

  /** The test-mode state: `test_question`, `score` and `question_order`. */
  class TestSession {
    const lessons: seq<Lesson>
    var testQuestion: nat
    var score: nat
    var questionOrder: seq<nat>

    /** The order is a shuffle of the lesson indices, and no more questions are right than were answered. */
    ghost predicate Valid()
      reads this
    {
      && |lessons| > 0
      && IsShuffleOf(questionOrder, |lessons|)
      && score <= testQuestion <= |lessons|
    }

    /** Test mode's first visit: question 0, no score, and `order` some shuffle of the indices. */
    constructor (lessons: seq<Lesson>, order: seq<nat>)
      requires |lessons| > 0 && IsShuffleOf(order, |lessons|)
      ensures Valid() && this.lessons == lessons
      ensures testQuestion == 0 && score == 0 && questionOrder == order
    {
      this.lessons := lessons;
      testQuestion := 0;
      score := 0;
      questionOrder := order;
    }

    /** Whether every question has been answered and the results are shown. */
    predicate Finished()
      reads this
    {
      testQuestion >= |lessons|
    }

    /** The lesson asked by the current question. */
    function CurrentLesson(): (l: Lesson)
      reads this
      requires Valid() && !Finished()
      ensures l in lessons
    {
      ShuffleEntries(questionOrder, |lessons|);
      lessons[questionOrder[testQuestion]]
    }

    /**
     * "Submit Answer": the score grows by one exactly when the answer is
     * correct for the current lesson; the question counter always advances.
     */
    method Submit(answer: string) returns (correct: bool)
      requires Valid() && !Finished() && answer in AnswerOptions
      modifies this
      ensures Valid()
      ensures correct == IsCorrect(answer, old(CurrentLesson()).english)
      ensures score == old(score) + (if correct then 1 else 0)
      ensures testQuestion == old(testQuestion) + 1
      ensures questionOrder == old(questionOrder)
    {
      var lesson := CurrentLesson();
      correct := Contains(Lower(lesson.english), Lower(answer));
      if correct {
        score := score + 1;
      }
      testQuestion := testQuestion + 1;
    }

    /** "Restart Test", shown once the test is finished: back to question 0 with a new shuffle. */
    method Restart(order: seq<nat>)
      requires Valid() && Finished() && IsShuffleOf(order, |lessons|)
      modifies this
      ensures Valid()
      ensures testQuestion == 0 && score == 0 && questionOrder == order
    {
      testQuestion := 0;
      score := 0;
      questionOrder := order;
    }

    /** The sidebar's "Test progress" question number, as the app computes it: `test_question + 1`. */
    function SidebarQuestionAsWritten(): nat
      reads this
    {
      testQuestion + 1
    }

    /** The sidebar's question number kept within `1..len(lessons)`: the last question once finished. */
    function SidebarQuestion(): (k: nat)
      reads this
      requires Valid()
      ensures 1 <= k <= |lessons|
      ensures !Finished() ==> k == SidebarQuestionAsWritten()
    {
      if testQuestion < |lessons| then testQuestion + 1 else |lessons|
    }

    /**
     * The band shown when the test is finished: the score is out of the
     * number of lessons, at least 80 percent is excellent and below 60
     * percent means more study.
     */
    function FinalGrade(): (g: Grade)
      reads this
      requires Valid() && Finished()
      ensures score <= |lessons|
      ensures g == Excellent <==> score * 100 >= 80 * |lessons|
      ensures g == KeepStudying <==> score * 100 < 60 * |lessons|
    {
      GradeOf(score, |lessons|)
    }
  }

  /**
   * Once every question is answered, the sidebar as written reports one
   * question more than the test has ("11/10" for ten lessons).
   */
  lemma SidebarOverflowsWhenFinished(t: TestSession)
    requires t.Valid() && t.Finished()
    ensures t.SidebarQuestionAsWritten() == |t.lessons| + 1
  {
  }
}
