/**
 * The lesson generator of `src/generate_audio_edge.py`: how one matched
 * markdown entry becomes a lesson record (ids, audio file names, stripped
 * fields, the optional French part), which speech voice each clip gets,
 * and the summary counters of a whole run.
 *
 * The markdown regular expression is not modelled: its matches are the
 * input, as `Entry` values. The speech service is not modelled either: the
 * outcome of each synthesis is an input boolean.
 */
module AudioGenerator {
  import opened Wrappers
  import opened Text

  /** Source file stem whose lessons use the `driving-` naming scheme. */
  const DrivingSource: string := "chinese-driving"

  /** A lesson id: a digit-only id is stored as a number, any other as text. */
  datatype LessonId = Number(value: nat) | Label(text: string)

  /**
   * The six capture groups of one match: id, Chinese, pinyin, literal
   * gloss, English, French. Python's `re.findall` yields "" for the French
   * group when the entry has no French line.
   */
  datatype Entry = Entry(id: string, chinese: string, pinyin: string, literal: string, english: string, french: string)

  /** The `french` and `french_audio_file` keys of a record, present together or not at all. */
  datatype FrenchPart = FrenchPart(text: string, audioFile: string)

  /** One lesson record as written to `lessons.json`. */
  datatype Lesson = Lesson(
    id: LessonId,
    chinese: string,
    pinyin: string,
    literal: string,
    english: string,
    audioFile: string,
    source: string,
    french: Option<FrenchPart>)

  // ---------------------------------------------------------------------
  // Record construction
  // ---------------------------------------------------------------------

  /** File name of the Chinese clip of the lesson with id `id` read from file stem `source`. */
  function AudioFileName(id: string, source: string): string {
    if IsDigits(id) then
      if source == DrivingSource then "driving-" + id + ".mp3" else "lesson_" + ZFill(id, 2) + ".mp3"
    else
      if source == DrivingSource then "driving-" + id + ".mp3" else id + ".mp3"
  }

  /** File name of the French clip of the same lesson. */
  function FrenchAudioFileName(id: string, source: string): string {
    if IsDigits(id) then
      if source == DrivingSource then "driving-" + id + "_fr.mp3" else "lesson_" + ZFill(id, 2) + "_fr.mp3"
    else
      if source == DrivingSource then "driving-" + id + "_fr.mp3" else id + "_fr.mp3"
  }

  /** The stored id: `int(id)` for a digit-only id, the id text otherwise. */
  function DisplayId(id: string): LessonId {
    if IsDigits(id) then Number(DigitsValue(id)) else Label(id)
  }

  /** The record built from one match read from the file with stem `source`. */
  function BuildLesson(e: Entry, source: string): Lesson {
    var french := if e.french != [] && Strip(e.french) != [] then Some(FrenchPart(Strip(e.french), FrenchAudioFileName(e.id, source))) else None;
    Lesson(DisplayId(e.id), Strip(e.chinese), Strip(e.pinyin), Strip(e.literal), Strip(e.english),
           AudioFileName(e.id, source), source, french)
  }

  /**
   * `parse_markdown` after the regular expression has run: one record per
   * match, appended in match order.
   */
  method ParseMarkdown(matches: seq<Entry>, source: string) returns (lessons: seq<Lesson>)
    ensures |lessons| == |matches|
    ensures forall i :: 0 <= i < |matches| ==> lessons[i] == BuildLesson(matches[i], source)
  {
    lessons := [];
    for i := 0 to |matches|
      invariant |lessons| == i
      invariant forall k :: 0 <= k < i ==> lessons[k] == BuildLesson(matches[k], source)
    {
      var lesson := BuildLesson(matches[i], source);
      lessons := lessons + [lesson];
    }
  }

  // ---------------------------------------------------------------------
  // Properties of the records
  // ---------------------------------------------------------------------

  /** A numeric id outside the driving source gets `lesson_` and its id zero-padded to two digits. */
  lemma NumericAudioFileName(id: string, source: string)
    requires IsDigits(id) && source != DrivingSource
    ensures var name := AudioFileName(id, source);
      var padded := name[7..|name| - 4];
      && name == "lesson_" + padded + ".mp3"
      && |padded| == (if |id| >= 2 then |id| else 2)
      && padded[|padded| - |id|..] == id
      && (forall i :: 0 <= i < |padded| - |id| ==> padded[i] == '0')
      && AllDigits(padded) && DigitsValue(padded) == DigitsValue(id)
  {
    var padded := ZFill(id, 2);
    var name := "lesson_" + padded + ".mp3";
    assert name[7..|name| - 4] == padded;
  }

  /** `5` read from `HSK2` plays `lesson_05.mp3`; `12` plays `lesson_12.mp3`. */
  lemma NumericAudioFileNameExamples()
    ensures AudioFileName("5", "HSK2") == "lesson_05.mp3"
    ensures AudioFileName("12", "HSK2") == "lesson_12.mp3"
  {
    assert "HSK2" != DrivingSource by { assert "HSK2"[0] != DrivingSource[0]; }
    assert IsDigits("5") && IsDigits("12");
    assert Repeat('0', 1) == "0";
    assert ZFill("5", 2) == "0" + "5" == "05";
    assert ZFill("12", 2) == "12";
    assert AudioFileName("5", "HSK2") == "lesson_" + "05" + ".mp3";
    assert AudioFileName("12", "HSK2") == "lesson_" + "12" + ".mp3";
  }

  /** In the driving source every id, numeric or not, gets `driving-` and the id unchanged. */
  lemma DrivingAudioFileName(id: string)
    ensures AudioFileName(id, DrivingSource) == "driving-" + id + ".mp3"
    ensures FrenchAudioFileName(id, DrivingSource) == "driving-" + id + "_fr.mp3"
  {
  }

  /** In every branch the French file name is the Chinese one with `_fr` before `.mp3`. */
  lemma FrenchFileNameInsertsSuffix(id: string, source: string)
    ensures var name := AudioFileName(id, source);
      && |name| >= 4 && name[|name| - 4..] == ".mp3"
      && FrenchAudioFileName(id, source) == name[..|name| - 4] + "_fr.mp3"
  {
    var name := AudioFileName(id, source);
    var stem := if source == DrivingSource then "driving-" + id
      else if IsDigits(id) then "lesson_" + ZFill(id, 2) else id;
    assert name == stem + ".mp3";
    assert name[..|name| - 4] == stem;
  }

  /** A digit-only id becomes its decimal value, any other id stays the same text. */
  lemma DisplayIdMeaning(id: string)
    ensures DisplayId(id).Number? <==> IsDigits(id)
    ensures DisplayId(id).Number? ==> DisplayId(id).value == DigitsValue(id)
    ensures DisplayId(id).Label? ==> DisplayId(id).text == id
  {
  }

  /** Zero padding does not survive: `05` is stored as 5, like `5`; `6a` stays text. */
  lemma DisplayIdExamples()
    ensures DisplayId("05") == Number(5) && DisplayId("5") == Number(5)
    ensures DisplayId("6a") == Label("6a") && DisplayId("") == Label("")
  {
    assert IsDigits("05") && IsDigits("5") && !IsDigit("6a"[1]);
    assert "05"[..1] == "0" && "0"[..0] == "" && "5"[..0] == "";
    assert DigitsValue("0") == 0;
  }

  /**
   * Every text field of a record is the trim of its captured group, the
   * source is the file stem, and the French part is present exactly when
   * the French group holds something other than whitespace.
   */
  lemma BuildLessonFields(e: Entry, source: string)
    ensures var l := BuildLesson(e, source);
      && IsTrimOf(l.chinese, e.chinese) && IsTrimOf(l.pinyin, e.pinyin)
      && IsTrimOf(l.literal, e.literal) && IsTrimOf(l.english, e.english)
      && l.source == source
      && (l.french.Some? <==> !AllSpace(e.french))
      && (l.french.Some? ==> l.french.value.text != [] && IsTrimOf(l.french.value.text, e.french))
  {
    StripIsTrim(e.chinese);
    StripIsTrim(e.pinyin);
    StripIsTrim(e.literal);
    StripIsTrim(e.english);
    StripIsTrim(e.french);
    StripEmptyIff(e.french);
  }

  /**
   * The clip names of a record agree with its stored id: outside the driving
   * source a numeric id is spelled in the name as at least two digits of the
   * same value and a text id verbatim; in the driving source the name is
   * `driving-` and the id as written. The French clip, present only with
   * French text, is the Chinese clip's name with `_fr` before `.mp3`.
   */
  lemma LessonFileNames(e: Entry, source: string)
    ensures var l := BuildLesson(e, source);
      var name := l.audioFile;
      && |name| >= 4 && name[|name| - 4..] == ".mp3"
      && (l.french.Some? ==> l.french.value.audioFile == name[..|name| - 4] + "_fr.mp3")
      && (source == DrivingSource ==> name == "driving-" + e.id + ".mp3")
      && (source != DrivingSource && l.id.Label? ==> name == l.id.text + ".mp3")
      && (source != DrivingSource && l.id.Number? ==>
            |name| >= 13 && name[..7] == "lesson_"
            && AllDigits(name[7..|name| - 4]) && DigitsValue(name[7..|name| - 4]) == l.id.value)
  {
    var l := BuildLesson(e, source);
    FrenchFileNameInsertsSuffix(e.id, source);
    DisplayIdMeaning(e.id);
    if IsDigits(e.id) && source != DrivingSource {
      NumericAudioFileName(e.id, source);
    }
  }

  // ---------------------------------------------------------------------
  // Voice selection (`generate_audio`)
  // ---------------------------------------------------------------------

  const ChineseVoice: string := "zh-CN-YunyangNeural"
  const DrivingVoice: string := "zh-CN-XiaoxuanNeural"
  const FrenchVoice: string := "fr-FR-HenriNeural"

  datatype VoiceSetting = VoiceSetting(voice: string, rate: string)

  /** Voice and speaking rate for a clip, from the language and the output file name alone. */
  function SelectVoice(language: string, outputFile: string): VoiceSetting {
    if language == "french" then VoiceSetting(FrenchVoice, "-10%")
    else if "driving-" <= outputFile then VoiceSetting(DrivingVoice, "-20%")
    else VoiceSetting(ChineseVoice, "-20%")
  }

  /**
   * The Chinese clip of a lesson is read by the driving voice exactly when
   * the lesson comes from the driving source, or its id is text that itself
   * starts with `driving-`; every other Chinese clip gets the default voice,
   * and every Chinese clip the rate -20%.
   */
  lemma {:induction false} LessonVoice(e: Entry, source: string)
    ensures var v := SelectVoice("chinese", BuildLesson(e, source).audioFile);
      && v.rate == "-20%"
      && (v.voice == DrivingVoice <==> source == DrivingSource || (!IsDigits(e.id) && "driving-" <= e.id))
      && (v.voice != DrivingVoice ==> v.voice == ChineseVoice)
  {
    var name := BuildLesson(e, source).audioFile;
    if source != DrivingSource {
      if IsDigits(e.id) {
        assert name[0] == 'l';
      } else {
        assert name == e.id + ".mp3";
        if |e.id| >= 8 {
          assert name[..8] == e.id[..8];
        } else {
          assert name[|e.id|] == '.' != "driving-"[|e.id|];
        }
      }
    }
  }

  /** Every French clip gets the French voice at rate -10%, whatever its file name. */
  lemma FrenchVoiceSetting(outputFile: string)
    ensures SelectVoice("french", outputFile) == VoiceSetting(FrenchVoice, "-10%")
  {
  }

  // ---------------------------------------------------------------------
  // Summary counters (`process_all_lessons`)
  // ---------------------------------------------------------------------

  /** The counters written beside the records to `lessons.json`. */
  datatype Summary = Summary(
    totalLessons: nat,
    audioGenerated: nat,
    frenchAudioGenerated: nat,
    totalCharacters: nat,
    lessonsWithFrench: nat,
    lessons: seq<Lesson>)

  /** Sum of the lengths of the Chinese texts. */
  function TotalCharacters(lessons: seq<Lesson>): nat {
    if lessons == [] then 0
    else TotalCharacters(lessons[..|lessons| - 1]) + |lessons[|lessons| - 1].chinese|
  }

  /** Number of records that carry the French keys. */
  function LessonsWithFrench(lessons: seq<Lesson>): (n: nat)
    ensures n <= |lessons|
  {
    if lessons == [] then 0
    else LessonsWithFrench(lessons[..|lessons| - 1]) + (if lessons[|lessons| - 1].french.Some? then 1 else 0)
  }

  /** A French clip is requested for a record when its French text is present and non-empty. */
  predicate WantsFrenchAudio(l: Lesson) {
    l.french.Some? && l.french.value.text != []
  }

  /** Number of Chinese clips generated: synthesis succeeded and the speech package was installed. */
  function ChineseSuccesses(ttsAvailable: bool, synthesized: seq<bool>): (n: nat)
    ensures n <= |synthesized|
    ensures !ttsAvailable ==> n == 0
  {
    if synthesized == [] then 0
    else
      var last := |synthesized| - 1;
      ChineseSuccesses(ttsAvailable, synthesized[..last]) + (if ttsAvailable && synthesized[last] then 1 else 0)
  }

  /** Number of French clips generated, counting only records that request one. */
  function FrenchSuccesses(lessons: seq<Lesson>, ttsAvailable: bool, synthesized: seq<bool>): (n: nat)
    requires |synthesized| == |lessons|
    ensures n <= LessonsWithFrench(lessons)
    ensures !ttsAvailable ==> n == 0
  {
    if lessons == [] then 0
    else
      var last := |lessons| - 1;
      FrenchSuccesses(lessons[..last], ttsAvailable, synthesized[..last])
        + (if WantsFrenchAudio(lessons[last]) && ttsAvailable && synthesized[last] then 1 else 0)
  }

  lemma ChineseSuccessesStep(ttsAvailable: bool, synthesized: seq<bool>, i: nat)
    requires i < |synthesized|
    ensures ChineseSuccesses(ttsAvailable, synthesized[..i + 1])
      == ChineseSuccesses(ttsAvailable, synthesized[..i]) + (if ttsAvailable && synthesized[i] then 1 else 0)
  {
    assert synthesized[..i + 1][..i] == synthesized[..i];
  }

  lemma FrenchSuccessesStep(lessons: seq<Lesson>, ttsAvailable: bool, synthesized: seq<bool>, i: nat)
    requires |synthesized| == |lessons| && i < |lessons|
    ensures FrenchSuccesses(lessons[..i + 1], ttsAvailable, synthesized[..i + 1])
      == FrenchSuccesses(lessons[..i], ttsAvailable, synthesized[..i])
        + (if WantsFrenchAudio(lessons[i]) && ttsAvailable && synthesized[i] then 1 else 0)
  {
    assert synthesized[..i + 1][..i] == synthesized[..i];
    assert lessons[..i + 1][..i] == lessons[..i];
  }

  /** Character totals add up over a split of the lesson list. */
  lemma {:induction false} TotalCharactersAppend(a: seq<Lesson>, b: seq<Lesson>)
    ensures TotalCharacters(a + b) == TotalCharacters(a) + TotalCharacters(b)
    decreases |b|
  {
    if b == [] {
      assert a + b == a;
    } else {
      var b' := b[..|b| - 1];
      TotalCharactersAppend(a, b');
      assert (a + b)[..|a + b| - 1] == a + b';
    }
  }

  /**
   * `process_all_lessons`: builds the records, then asks for one Chinese
   * clip per record and one French clip per record with French text,
   * counting the clips that were generated. `synthesized[i]` and
   * `frenchSynthesized[i]` stand for the outcome of the speech service on
   * the `i`-th record's clips; `ttsAvailable` for the package being installed.
   */
  method ProcessAllLessons(
    matches: seq<Entry>, source: string, ttsAvailable: bool,
    synthesized: seq<bool>, frenchSynthesized: seq<bool>) returns (s: Summary)
    requires |synthesized| == |matches| && |frenchSynthesized| == |matches|
    ensures |s.lessons| == |matches|
    ensures forall i :: 0 <= i < |matches| ==> s.lessons[i] == BuildLesson(matches[i], source)
    ensures s.totalLessons == |matches|
    ensures s.totalCharacters == TotalCharacters(s.lessons)
    ensures s.lessonsWithFrench == LessonsWithFrench(s.lessons)
    ensures s.audioGenerated == ChineseSuccesses(ttsAvailable, synthesized)
    ensures s.frenchAudioGenerated == FrenchSuccesses(s.lessons, ttsAvailable, frenchSynthesized)
    ensures s.lessonsWithFrench <= s.totalLessons
    ensures s.audioGenerated <= s.totalLessons
    ensures s.frenchAudioGenerated <= s.lessonsWithFrench
  {
    var lessons := ParseMarkdown(matches, source);
    var successfulChinese := 0;
    var successfulFrench := 0;
    var total := |lessons|;
    var characters := TotalCharacters(lessons);
    var withFrench := LessonsWithFrench(lessons);
    for i := 0 to |lessons|
      invariant successfulChinese == ChineseSuccesses(ttsAvailable, synthesized[..i])
      invariant successfulFrench == FrenchSuccesses(lessons[..i], ttsAvailable, frenchSynthesized[..i])
    {
      ChineseSuccessesStep(ttsAvailable, synthesized, i);
      FrenchSuccessesStep(lessons, ttsAvailable, frenchSynthesized, i);
      if ttsAvailable && synthesized[i] {
        successfulChinese := successfulChinese + 1;
      }
      if WantsFrenchAudio(lessons[i]) {
        if ttsAvailable && frenchSynthesized[i] {
          successfulFrench := successfulFrench + 1;
        }
      }
    }
    assert synthesized[..|lessons|] == synthesized;
    assert lessons[..|lessons|] == lessons;
    assert frenchSynthesized[..|lessons|] == frenchSynthesized;
    s := Summary(total, successfulChinese, successfulFrench, characters, withFrench, lessons);
  }
}
