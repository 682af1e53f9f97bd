# Chinese driving-test lessons: a verified model

This project models the deterministic core of a small Chinese driving-test
study tool. The tool has two parts:

- **The lesson generator** (`src/generate_audio_edge.py`). It turns the entries
  of a markdown lesson file into lesson records: id, Chinese text, pinyin,
  literal gloss, English, an optional French translation, and the names of
  the audio clips. It picks a speech voice for each clip and counts what was
  generated.
- **The Streamlit app** (`app.py`). It shows the lessons in study mode with
  previous/next/jump navigation. It also runs a test mode that asks every
  lesson once in shuffled order, scores the answers and gives a grade.

Modules, one per source file, plus two helpers:

- `Wrappers` (`wrappers.dfy`): `Option`, for dictionary keys that may be missing.
- `Text` (`text.dfy`): the Python string operations the code relies on:
  `strip()` and `isspace()`, `sub in s`, `lower()`, `isdigit()`, `int()` and
  `zfill()`.
  - `Strip` is proved to compute `IsTrimOf`, an independent definition of
    "the string without surrounding whitespace", and that trim is unique.
  - `Contains` is proved equal to "occurs at some position".
- `AudioGenerator` (`audio_generator.dfy`): record construction, voice
  choice and the summary counters.
  - `ParseMarkdown` and `ProcessAllLessons` are the source's loops, proved
    against the functions `BuildLesson`, `ChineseSuccesses`,
    `FrenchSuccesses`, `LessonsWithFrench` and `TotalCharacters`.
- `App` (`app.dfy`): the command-type classifier, the English table, the
  answer check, the grade bands and the question-order shuffle.
  - The study-mode cursor (`StudyCursor`) and the test-mode state
    (`TestSession`) are classes whose fields are the session-state keys
    `selected_index`, `test_question`, `score` and `question_order`.

Two facts about the code shape the model:

- `re.findall` with six groups always yields six-tuples, with `""` for an
  unmatched optional French group. So the five-element branch at
  `src/generate_audio_edge.py:83-85` never runs, and `Entry.french` is a plain
  string.
- Test-mode answers are checked by a lower-case substring test against the
  lesson's `english` field.

## Model

| member | source | states |
|---|---|---|
| `AudioGenerator.ParseMarkdown` | src/generate_audio_edge.py:79-125 | one record per match, in match order, each the record `BuildLesson` builds from that match and the file stem |
| `AudioGenerator.BuildLessonFields` | src/generate_audio_edge.py:110-123 | the record `BuildLesson` builds: chinese, pinyin, literal and english are the trims of their groups; `source` is the file stem; the French part is present exactly when the French group is not all whitespace, and then holds its non-empty trim |
| `AudioGenerator.LessonFileNames` | src/generate_audio_edge.py:91-123 | a record's clip names agree with its stored id: outside the driving source a numeric id appears as `lesson_` + at least two digits of the same value, a text id verbatim; in the driving source `driving-<id>`; the French clip, present only with French text, is the Chinese name with `_fr` before `.mp3` |
| `AudioGenerator.NumericAudioFileName` | src/generate_audio_edge.py:96-98 | `AudioFileName`, outside the driving source, for a digit-only id: `lesson_` + the id left-padded with '0' to at least two characters + `.mp3`, with the same numeric value |
| `AudioGenerator.NumericAudioFileNameExamples` | src/generate_audio_edge.py:97 | `5` gives `lesson_05.mp3`, `12` gives `lesson_12.mp3` |
| `AudioGenerator.DrivingAudioFileName` | src/generate_audio_edge.py:93-104 | `AudioFileName` and `FrenchAudioFileName` in the `chinese-driving` source: every id, numeric or text, gives `driving-<id>.mp3` and `driving-<id>_fr.mp3` |
| `AudioGenerator.FrenchFileNameInsertsSuffix` | src/generate_audio_edge.py:93-107 | in every branch of `AudioFileName` the name ends in `.mp3`, and `FrenchAudioFileName` is it with `_fr` inserted before `.mp3` |
| `AudioGenerator.DisplayIdMeaning` | src/generate_audio_edge.py:91-108 | `DisplayId`: the id is a number exactly when it is digit-only, and then equals its decimal value; otherwise it is the same text |
| `AudioGenerator.DisplayIdExamples` | src/generate_audio_edge.py:99 | `05` and `5` both become 5; `6a` and the empty id stay text |
| `AudioGenerator.LessonVoice` | src/generate_audio_edge.py:138-147 | `SelectVoice` for a record's Chinese clip: the driving voice exactly when the source is `chinese-driving` or the text id starts with `driving-`, otherwise the default voice; the rate is always -20% |
| `AudioGenerator.FrenchVoiceSetting` | src/generate_audio_edge.py:138-140 | `SelectVoice` for a French clip: always the French voice at -10% |
| `AudioGenerator.LessonsWithFrench` | src/generate_audio_edge.py:176 | the count of records with French keys is at most the number of records |
| `AudioGenerator.ChineseSuccesses` | src/generate_audio_edge.py:189-191 | at most one generated Chinese clip per lesson, and none when the speech package is missing |
| `AudioGenerator.FrenchSuccesses` | src/generate_audio_edge.py:193-196 | generated French clips never outnumber the lessons with French, and are zero when the speech package is missing |
| `AudioGenerator.TotalCharactersAppend` | src/generate_audio_edge.py:175 | `TotalCharacters`, the sum of the Chinese text lengths, is additive over a split of the lesson list |
| `AudioGenerator.ProcessAllLessons` | src/generate_audio_edge.py:168-204 | the summary holds the parsed records and their count, character total and French count; the generated-clip counters equal the success counts; audio_generated ≤ total_lessons, lessons_with_french ≤ total_lessons, french_audio_generated ≤ lessons_with_french |
| `Text.StripIsTrim` | src/generate_audio_edge.py:112-122 | `Strip` (Python's `strip()`) returns a slice that neither starts nor ends with whitespace, with only whitespace outside it |
| `Text.TrimIsUnique` | src/generate_audio_edge.py:112-122 | a string has only one such trim |
| `Text.StripIdempotent` | src/generate_audio_edge.py:112-122 | stripping a stripped field changes nothing |
| `Text.StripEmptyIff` | src/generate_audio_edge.py:121 | `french.strip()` is empty exactly when the French group is all whitespace |
| `Text.ZFill` | src/generate_audio_edge.py:97 | `zfill(2)` keeps the id as a suffix, pads with '0' to length max(len, 2), and keeps the decimal value |
| `Text.ContainsIff` | app.py:162-171 | `Contains` (Python's `sub in s`) holds exactly when `sub` occurs at some position of `s` |
| `App.CommandTypePriority` | app.py:162-171 | `ClassifyCommand` (`cmd_type`): Basic Light Control iff 前照灯 or 关闭 occurs; else Passing Scenario iff 通过; else Overtaking iff 超越; else Parking iff 停车; else Driving Scenario |
| `App.CommandTypeExamples` | app.py:162-171 | a command with 关闭 is basic light control wherever it occurs; one with 通过 before 停车 is never parking |
| `App.TranslationKeys` | app.py:122-138 | the table covers ids 1-10 and 6a, 6b, 6c, 6d, 8a, and no other id |
| `App.EnglishTextOfEntry` | app.py:139 | `EnglishText` of a parsed record is the table entry when the id is in the table (`07` finds 7's entry), otherwise the stripped literal gloss |
| `App.IsCorrectMeaning` | app.py:208 | `IsCorrect`: an answer is correct iff its lower-cased form (`Lower`) occurs in the lower-cased `english` |
| `App.VerbatimAnswerIsCorrect` | app.py:208 | an answer found verbatim in `english` is accepted |
| `App.IsCorrectIgnoresCase` | app.py:208 | lower-casing either side first does not change the verdict |
| `App.GradeBands` | app.py:222-230 | `GradeOf`: Excellent iff score·100 ≥ 80·n; Good iff 60·n ≤ score·100 < 80·n; Keep studying iff score·100 < 60·n |
| `App.GradeMonotone` | app.py:225-230 | a higher score never gets a lower band |
| `App.GradeExamples` | app.py:222-230 | 4/5 is excellent, 3/5 good, 2/5 keep studying; a full score is excellent, zero is keep studying |
| `App.IndicesCount` | app.py:183 | `list(range(n))` holds each of 0..n-1 exactly once and nothing else |
| `App.ShuffleEntries` | app.py:183-189 | a shuffled order has one entry per lesson, each a valid lesson index |
| `App.EachLessonAskedOnce` | app.py:183-188 | over a full test every lesson is asked, and none twice |
| `App.StudyCursor.constructor` | app.py:68-69 | study mode starts at index 0, which is in range because there is at least one lesson |
| `App.StudyCursor.Previous` | app.py:75-77 | offered only when the index is above 0; decrements by exactly 1 and stays in range |
| `App.StudyCursor.Next` | app.py:85-87 | offered only below the last index; increments by exactly 1 and stays in range |
| `App.StudyCursor.Jump` | app.py:93-100 | sets the index to the chosen value from `range(len(lessons))`, and changes nothing when it equals the current one |
| `App.StudyCursor.Current` | app.py:103 | the displayed lesson is one of the lessons |
| `App.StudyCursor.Progress` | app.py:245 | the progress fraction (index+1)/n lies in (0, 1], and is 1 exactly at the last lesson |
| `App.TestSession.constructor` | app.py:179-184 | test mode starts at question 0 with score 0 and an order that is a permutation of 0..n-1 |
| `App.TestSession.CurrentLesson` | app.py:186-189 | the asked lesson is one of the lessons |
| `App.TestSession.Submit` | app.py:207-214 | the score grows by 1 exactly when the answer is correct; the question counter always grows by 1; the order is kept; score ≤ test_question is preserved |
| `App.TestSession.Restart` | app.py:232-237 | after the test, resets question and score to 0 with a new permutation of 0..n-1 |
| `App.TestSession.FinalGrade` | app.py:219-230 | at the end the score is at most n; the band is Excellent iff ≥ 80% and Keep studying iff < 60% |
| `App.SidebarOverflowsWhenFinished` | app.py:248 | once the test is finished, the sidebar question number as written is n+1 |
| `App.TestSession.SidebarQuestion` | app.py:248 | the corrected sidebar question number always lies in 1..n and agrees with the original while questions remain |

## Findings

| source | as written | input that shows it | evidently intended | confidence | as-written member | corrected member |
|---|---|---|---|---|---|---|
| app.py:248 | the sidebar shows `test_question + 1` out of `len(lessons)` in every test state | a finished test of 10 lessons: `test_question` is 10, so the sidebar reads "Test progress: 11/10" | a question number that stays within 1..n, e.g. n once the test is finished | medium, not executed | `App.SidebarOverflowsWhenFinished` | `App.TestSession.SidebarQuestion` |

## Left out

- Streamlit rendering is not modelled: page setup, titles, columns, buttons as widgets, the sidebar text, `st.rerun` and `st.cache_data`. Each button press or selection is one method call on `StudyCursor` or `TestSession`.
- How Streamlit's keyed select box keeps its own value across reruns is not modelled. "Jump" is modelled as a separate event that sets the index to the chosen value.
- File and process I/O is not modelled. This covers loading `data/lessons.json` and audio bytes, the existence checks on audio files, the `subprocess.run` of the generator, creating `data/` and `audio/`, writing `lessons.json`, and the `FileNotFoundError` for a missing input file.
- The markdown regular expression is not modelled. Its matches are the input, as `Entry` values.
- The source file stem is an input. `Path(...).stem` is not modelled.
- The edge-tts network synthesis and the async flow are not modelled. Each synthesis outcome is an input boolean. The package being installed is the input `ttsAvailable`.
- The summary's constant fields (`estimated_cost_usd`, `metadata`) and all console output are not modelled.
- `random.shuffle` is not modelled. The model accepts any order that is a permutation of `list(range(n))`.
- Float percentages are restated with integer cross-multiplication. This covers `score_percentage` and the progress value.
- `Text.Lower`, and hence `App.IsCorrectMeaning`, lower-cases ASCII letters only. Python's `lower()` also folds non-ASCII letters.
- `Text.IsDigits` accepts ASCII digits only. Python's `isdigit()` also accepts other Unicode digits.
- `Text.ZFill` does not model Python's handling of a leading sign. It requires that the string not start with '+' or '-', which holds for the digit-only ids it is applied to.
- The voice and option dictionaries are reduced to the three voices the code selects (Yunyang, Xiaoxuan, Henri).
- The pitch argument is not modelled.
