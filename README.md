# Training-report chatbot: a Dafny model of its core

The application is a small Streamlit chat assistant for writing a report
after a training course. The user uploads the course document as a PDF.
The assistant reads the text and takes the file's stem as the report title.
On an ok-word it asks the chat model for a few reflection questions and
poses them one at a time. A done-word makes the chat model write a report
draft under a title line. Any other message is taken as an answer during
the question walk, and otherwise gets a free-form reply. The repository
also has a rule-based question extractor (`extract_questions`), which
finds question markers such as `Q1:` or `【問3】` in a document's lines.

The model has these modules:

- `Text`: the Python string primitives the code relies on, over `seq<char>`.
  These are `isspace`, `\d`, `splitlines`, `strip`/`lstrip`/`rstrip`,
  `join`, `lower`, `startswith` and non-negative slicing.
- `PdfText`: `read_pdf_text`. A PDF is given by what extraction yields for
  each page. The function is stated as a specification function and as the
  source's loop.
- `Markers`: the five regular expressions of `extract_questions`. Each has
  a closed-form matcher and a reference backtracking search over its atoms
  (greedy quantifiers tried longest first). The two are proved to agree on
  every string.
- `Extraction`: `extract_questions`, as the source's nested loop. It is
  proved equal to a recursive specification. That specification is proved
  to be "the first `max_q` distinct non-empty captures, in order".
- `QuestionParser`: the parser of the chat model's reply in
  `make_questions_from_doc`, as the source's loops. They are proved equal
  to a specification and characterised as "the first `n` non-blank parsed
  lines".
- `Prompts`: the fixed messages and prompt texts.
- `SessionSpec`: the session state as a value (`Snapshot`) and one function
  per step, with lemmas on them. The steps are the upload, `ask_next_question`,
  the report draft with its title wrap, and the dispatch of a chat message.
  The chat model is a parameter: a function from the messages sent to the
  reply text.
- `Session`: the session as a class whose fields the steps update in place.
  Each method is proved to leave exactly the state its `SessionSpec`
  counterpart describes, and to keep the cursor within the question list.

## Model

| member | source | states |
|---|---|---|
| PdfText.ReadPdfTextLoop | src/pdf_utils.py:7-18 | the page loop returns exactly `ReadPdfText`: on an unparsable file or a page that raises, ("", 0); otherwise the page texts (a missing text counts as "") joined with "\n" and stripped, and the page count |
| PdfText.ReadPdfText | pdf_utils.py:6-21 | the second copy of `read_pdf_text` behaves the same; the returned text never starts or ends with whitespace |
| PdfText.MissingPageKeepsGap | src/pdf_utils.py:12-15 | a page without text between two pages with text still takes its place: their texts end up two line breaks apart |
| PdfText.CountIsPages | src/pdf_utils.py:16-18 | the count is the number of pages unless reading fails; it is zero exactly when reading fails or there are no pages |
| PdfText.FailureIsEmpty | src/pdf_utils.py:17-18 | any failure gives ("", 0) |
| PdfText.TextlessPages | src/pdf_utils.py:13 | pages with no text give an empty text but still count |
| PdfText.PagesRecoverable | src/pdf_utils.py:15 | one-line, already stripped, non-empty page texts are recovered by splitting the result into lines |
| Markers.CaptureIsBacktracking | src/pdf_utils.py:29-36 | for every marker and every line, the closed-form matcher finds the capture start that Python's backtracking match finds |
| Markers.ColonQIsBacktracking | src/pdf_utils.py:30 | `Q`/`Ｑ`, spaces, a colon, spaces, then the capture: the matcher agrees with the backtracking search |
| Markers.NumberedQIsBacktracking | src/pdf_utils.py:31 | the numbered `Q` marker, with its optional punctuation, agrees with the backtracking search |
| Markers.NumberedMonIsBacktracking | src/pdf_utils.py:32 | the numbered `問` marker agrees with the backtracking search |
| Markers.BracketedMonIsBacktracking | src/pdf_utils.py:33 | the `【問n】` marker, brackets optional, agrees with the backtracking search |
| Markers.MondaiColonIsBacktracking | src/pdf_utils.py:34 | the `問題：` marker agrees with the backtracking search |
| Markers.SearchDown | src/pdf_utils.py:31 | a greedy run tries its longest length first, then gives back one character at a time |
| Markers.Capture | src/pdf_utils.py:29-35 | definition: for each marker, where its capture starts in a line, or `None` when the marker does not match; a capture start lies inside the line |
| Markers.MatchLine | src/pdf_utils.py:36-46 | definition: the capture of the first marker that matches the line, or `None` |
| Markers.MatchLineOrder | src/pdf_utils.py:38-46 | the capture of a line comes from the first marker, in list order, that matches it |
| Markers.MatchLineIsSuffix | src/pdf_utils.py:40-42 | a capture is a non-empty suffix of the line |
| Markers.NoMarkerNoMatch | src/pdf_utils.py:29-35 | a line that does not open with one of the markers' leading characters yields nothing |
| Markers.ColonQForm | src/pdf_utils.py:30 | `Q` + colon + spaces + text captures the text, for both letters and both colons |
| Markers.NumberedForm | src/pdf_utils.py:31-32 | `Q`/`問` + digits + spaces + text captures the text, when the text opens with no digit, space or punctuation |
| Markers.NumberedPunctForm | src/pdf_utils.py:31-32 | `Q`/`問` + digits + one punctuation mark + spaces + text captures the text |
| Markers.BracketedForm | src/pdf_utils.py:33 | `【問` + digits + `】` + spaces + text captures the text |
| Markers.MondaiForm | src/pdf_utils.py:34 | `問題` + colon + spaces + text captures the text |
| Markers.QDigitIsNotColonQ | src/pdf_utils.py:30 | a `Q` directly followed by a digit is not the colon form |
| Markers.MonIsNotQ | src/pdf_utils.py:30-31 | a line opening with `問` matches neither `Q` marker |
| Markers.DocumentedColonForm | src/pdf_utils.py:23 | "Q: xxx" yields "xxx" |
| Markers.DocumentedMondaiForm | src/pdf_utils.py:23 | "問題：xxx" yields "xxx" |
| Markers.DocumentedNumberPunctForm | src/pdf_utils.py:23 | "Q1: xxx" yields "xxx" |
| Markers.DocumentedFullWidthForm | src/pdf_utils.py:23 | "Ｑ２：xxx" yields "xxx" |
| Markers.DocumentedNumberedForm | src/pdf_utils.py:23 | "問1 xxx" yields "xxx" |
| Markers.DocumentedBracketedForm | src/pdf_utils.py:23 | "【問3】xxx" yields "xxx" |
| Markers.TrailingNumber | src/pdf_utils.py:31 | "Q12" yields "2": the digit run gives back a digit so that the capture is not empty |
| Markers.NumberedBeforeBracketed | src/pdf_utils.py:32-33 | "問1) x" yields "x" from the earlier numbered marker |
| Markers.BracketedAloneKeepsPunct | src/pdf_utils.py:33 | on "問1) x" the bracketed marker alone would keep the ")" in its capture |
| Extraction.Clean | src/pdf_utils.py:42-43 | a kept capture has no whitespace at either end |
| Extraction.CleanIsStrip | src/pdf_utils.py:43 | the trailing clean-up after `strip()` removes nothing further |
| Extraction.Candidate | src/pdf_utils.py:39-43 | a line's question, when there is one, has no whitespace at either end |
| Extraction.MatchFirst | src/pdf_utils.py:39-46 | the inner loop over the markers returns the first marker's capture |
| Extraction.AddLine | src/pdf_utils.py:40-46 | one line adds its cleaned capture to the list when it is non-empty and new, and changes nothing otherwise |
| Extraction.ExtractQuestions | src/pdf_utils.py:20-50 | definition: the scan over the stripped lines that keeps each non-empty new capture and stops after the line at which `max_q` are collected |
| Extraction.ExtractQuestionsLoop | src/pdf_utils.py:20-50 | the nested loop returns exactly the scan `ExtractQuestions` |
| Extraction.DistinctFromSpec | src/pdf_utils.py:44 | keeping first occurrences not seen before keeps exactly the unseen elements, each once |
| Extraction.CollectIsDistinctPrefix | src/pdf_utils.py:38-48 | the scan from collected questions `qs` adds the first distinct new candidates until `max_q` is reached |
| Extraction.ExtractIsDistinctCandidates | src/pdf_utils.py:20-50 | for `max_q >= 1` the result is the first `max_q` distinct non-empty captures in line order |
| Extraction.ExtractWithoutRoom | src/pdf_utils.py:47-48 | for `max_q < 1` the check after the first line stops the scan, so only the first line can contribute |
| Extraction.CandidatesSound | src/pdf_utils.py:42-45 | every candidate is non-empty and is some line's capture |
| Extraction.CandidatesComplete | src/pdf_utils.py:42-45 | every non-empty capture is a candidate |
| Extraction.ExtractBound | src/pdf_utils.py:47-48 | at most `max_q` questions, or at most one when `max_q < 1` |
| Extraction.ExtractNoDuplicates | src/pdf_utils.py:44 | no question is returned twice |
| Extraction.CollectSound | src/pdf_utils.py:38-48 | everything collected is a candidate |
| Extraction.ExtractSound | src/pdf_utils.py:42-45 | every question is non-empty, stripped, and the capture of some line |
| Extraction.ExtractComplete | src/pdf_utils.py:38-48 | when fewer than `max_q` are returned, every non-empty capture is among them |
| Extraction.GuardNeverRejects | src/pdf_utils.py:44 | a capture from a stripped line is never empty, so the emptiness test never rejects one |
| Extraction.CapturesNonEmpty | src/pdf_utils.py:30-34 | every capture of a document line is non-empty |
| Extraction.CollectNothing | src/pdf_utils.py:38-50 | lines without captures give no questions |
| Extraction.NoMarkerNoCandidate | src/pdf_utils.py:38-46 | a line with no marker gives no candidate |
| Extraction.NoMarkersNoQuestions | src/pdf_utils.py:20-50 | a document with no marker lines gives no questions |
| QuestionParser.Unprefix | streamlit_app.py:91-93 | removing the prefixes leaves a suffix of the line |
| QuestionParser.UnprefixLoop | streamlit_app.py:91-93 | the prefix loop, with no `break`, returns exactly `Unprefix` |
| QuestionParser.UnprefixAt | streamlit_app.py:91-93 | when only prefix `i` applies, the result is the line after that prefix with its punctuation removed |
| QuestionParser.UnprefixNone | streamlit_app.py:91-93 | a line with none of the prefixes is left alone |
| QuestionParser.ParseLineLoop | streamlit_app.py:88-93 | one reply line: trimmed, `None` when blank, else unprefixed |
| QuestionParser.ParseLineSkipsBlank | streamlit_app.py:88-90 | a line is skipped exactly when it is blank once trimmed |
| QuestionParser.ParseStep | streamlit_app.py:89-96 | one step of the scan: skip a blank line, stop once `n` are collected, otherwise continue |
| QuestionParser.ScanLine | streamlit_app.py:88-96 | the body of the line loop keeps the scan's remaining result unchanged |
| QuestionParser.ParseQuestions | streamlit_app.py:84-97 | definition: the reply stripped and split into lines, each line parsed, blank ones skipped, stopping once `n` are kept |
| QuestionParser.ParseQuestionsLoop | streamlit_app.py:84-97 | the parser's loop returns exactly `ParseQuestions` |
| QuestionParser.ParseIsPrefix | streamlit_app.py:86-97 | the scan from collected questions `qs` appends the first parsed lines until the cap is reached |
| QuestionParser.ParseQuestionsIsTake | streamlit_app.py:86-97 | the result is the first `n` (at least one) non-blank parsed lines |
| QuestionParser.ParseQuestionsBound | streamlit_app.py:95-96 | at most `n` questions when `n >= 1`, at most one otherwise |
| QuestionParser.KeptSound | streamlit_app.py:89-94 | every kept entry is the parse of some line |
| QuestionParser.ParseSound | streamlit_app.py:86-97 | every question is the parse of some reply line |
| QuestionParser.ParseNothing | streamlit_app.py:89-90 | only blank lines give no questions |
| QuestionParser.BlankReply | streamlit_app.py:84-97 | a reply whose lines are all blank once trimmed gives no questions |
| QuestionParser.TrimmedBulleted | streamlit_app.py:88 | bullet characters before a text are removed |
| QuestionParser.BulletedNumberedLine | streamlit_app.py:88-93 | "- Q1. 感想は？" gives "感想は？" |
| QuestionParser.NumberOnlyLine | streamlit_app.py:91-94 | "Q1." gives an empty question, which is still kept |
| Session.ChatSession.constructor | streamlit_app.py:12-26 | a new session: no document, no questions, cursor 0, the default title, the welcome message |
| SessionSpec.InitialValid | streamlit_app.py:12-26 | the initial state keeps the cursor within the list, has a message and no draft |
| Session.ChatSession.Upload | streamlit_app.py:42-53 | an upload sets the text and page count from the PDF and the title from a non-empty stem, and clears the questions and the cursor |
| SessionSpec.UploadResets | streamlit_app.py:42-52 | after an upload the walk restarts, the conversation and draft are kept, and a named file titles the session |
| SessionSpec.Stem | streamlit_app.py:49 | definition: `os.path.splitext(name)[0]` under POSIX rules: the name up to its last '.', when that dot follows the last '/' and is not part of a leading run of dots |
| SessionSpec.AfterUpload | streamlit_app.py:42-52 | definition: the state after one upload: the PDF's text and page count, the stem as title unless empty, no questions and the cursor at 0 |
| SessionSpec.StemEmpty | streamlit_app.py:49 | the stem is empty only for an empty name, so the fallback title applies only then |
| SessionSpec.StemOfName | streamlit_app.py:49 | `b.e` splits back to `b` when the extension holds no '.' or '/' and the base name is not only dots |
| SessionSpec.StemOfPdfName | streamlit_app.py:49 | a file named `b.pdf` titles the session `b` |
| SessionSpec.DocSnippet | streamlit_app.py:62-64 | definition: the stripped document, or past 9000 characters its first 6000 characters, the gap marker and the last 2500 characters of the unstripped text |
| SessionSpec.QuestionRequest | streamlit_app.py:66-81 | definition: the system prompt, then the excerpt and the number of questions asked for |
| SessionSpec.SnippetBound | streamlit_app.py:62-64 | the question request's excerpt is at most 9000 characters: the stripped text when short, else its first 6000 characters, the marker and the last 2500 characters |
| Session.MakeQuestionsFromDoc | streamlit_app.py:61-97 | the model's reply to the question request, parsed by the line loop |
| SessionSpec.MakeQuestionsBound | streamlit_app.py:95-96 | at most `n` questions come back |
| SessionSpec.AskNext | streamlit_app.py:99-110 | definition: with a question under the cursor, the cursor moved past it and the question message appended, and true; otherwise the state unchanged and false |
| Session.ChatSession.AskNextQuestion | streamlit_app.py:99-110 | with a question left, pose it and advance the cursor; otherwise change nothing and return false |
| SessionSpec.AskNextShows | streamlit_app.py:101-109 | exactly one assistant message is appended, it holds the question, the cursor moves one step, and nothing else changes |
| SessionSpec.AskNextExhausted | streamlit_app.py:101-110 | past the last question nothing changes and false is returned |
| SessionSpec.AskNextIntro | streamlit_app.py:104-105 | the opening line goes only with the first question and only when asked for; every question ends with the invitation to answer |
| SessionSpec.AskNextValid | streamlit_app.py:101-103 | posing a question keeps the cursor within the list |
| SessionSpec.WrapTitle | streamlit_app.py:148-152 | definition: the body as it is when its first line starts with 【 and holds 】, otherwise the title line, an empty line and the body |
| SessionSpec.ReportDraft | streamlit_app.py:113-152 | definition: the model's stripped reply to the report request, wrapped under the title |
| SessionSpec.FirstLine | streamlit_app.py:149 | the first line of the body holds no line break |
| SessionSpec.WrappedFirstLine | streamlit_app.py:152 | the wrapped draft's first line is the title line |
| SessionSpec.WrapTitleTitled | streamlit_app.py:148-152 | for a one-line title, the draft always opens with a title line, and the model's text is kept whole at its end |
| SessionSpec.WrapTitleIdempotent | streamlit_app.py:148-152 | wrapping a draft again changes nothing |
| SessionSpec.ReportPromptIsTemplate | streamlit_app.py:123-136 | the report prompt equals the source's triple-quoted template stripped as a whole |
| SessionSpec.ReportDraftTitled | streamlit_app.py:113-152 | for a one-line title, whatever the model replies, the draft opens with a title line |
| Text.LowerChar | streamlit_app.py:160 | definition: `str.lower` on one character for ASCII and full-width Latin capitals and the Kelvin sign; other characters are kept |
| SessionSpec.Classify | streamlit_app.py:160-195 | definition: the message stripped and lower-cased, tested against the done-words first and the ok-words second |
| SessionSpec.ClassifyMeaning | streamlit_app.py:160-195 | a message is a done-word exactly when its stripped, lower-cased form is listed; it is an ok-word only when listed there and not as a done-word |
| SessionSpec.SharedWordsReport | streamlit_app.py:163-195 | "done" and "完了" are in both lists, and the report wins |
| SessionSpec.SpacedDone | streamlit_app.py:160-163 | " Done " is a done-word |
| SessionSpec.UpperOk | streamlit_app.py:160-195 | "OK" is an ok-word |
| SessionSpec.KelvinOk | streamlit_app.py:160-195 | "o" followed by the Kelvin sign lower-cases to "ok", an ok-word |
| SessionSpec.FullWidthOk | streamlit_app.py:160-195 | full-width "ＯＫ" lower-cases to a listed ok-word |
| Session.ChatSession.HandleInput | streamlit_app.py:155-233 | one chat message leaves exactly the state `Turn` describes and keeps the cursor within the list |
| Session.ChatSession.StoreDraft | streamlit_app.py:172-173 | a new draft is kept and nothing else changes |
| SessionSpec.DraftStored | streamlit_app.py:173 | a state that differs only in holding the new draft is the stored-draft state |
| Session.ChatSession.ReportOnRequest | streamlit_app.py:163-173 | the guidance message when there is neither a document nor a user message, otherwise a new draft |
| Session.ChatSession.PrepareQuestions | streamlit_app.py:201-203 | the questions are made from the document, with the cursor at 0, only when there are none |
| Session.ChatSession.ConfirmUpload | streamlit_app.py:195-208 | the upload reminder without a document; otherwise prepare the questions and pose the next one, with the fallback message when none is left |
| Session.ChatSession.AnswerMessage | streamlit_app.py:210-233 | during a walk the next question; past its end the notice and then the model's reply; outside a walk the model's reply |
| Session.ChatSession.PressReportButton | streamlit_app.py:256-262 | the report button, shown once every question was posed, makes and keeps a draft |
| SessionSpec.Turn | streamlit_app.py:155-233 | definition: an empty message changes nothing; any other is recorded and dispatched by its kind |
| SessionSpec.Dispatch | streamlit_app.py:162-233 | definition: a done-word makes the report, an ok-word confirms the upload, anything else is answered |
| SessionSpec.EmptyPrompt | streamlit_app.py:155 | an empty message changes nothing |
| SessionSpec.TurnRecords | streamlit_app.py:155-160 | any other message is recorded first, then answered according to its kind |
| SessionSpec.GuardNeverFires | streamlit_app.py:156-164 | the message being handled is a user message, so the report guard never fires |
| SessionSpec.ReportWithAnswers | streamlit_app.py:164-173 | with a user message present, a done-word always makes a draft |
| SessionSpec.DoneWordReports | streamlit_app.py:162-192 | a done-word makes the draft from the conversation including itself, and changes nothing else |
| SessionSpec.OkWithoutDocument | streamlit_app.py:196-199 | an ok-word with no document only appends the upload reminder |
| SessionSpec.AskFirst | streamlit_app.py:203-204 | from cursor 0, the first question is posed with the opening line, or nothing happens when there is none |
| SessionSpec.ConfirmStarts | streamlit_app.py:200-207 | without questions, an ok-word makes them and poses the first with the opening line, or gives the fallback message when none was made |
| SessionSpec.OkStartsWalk | streamlit_app.py:195-208 | the same for the whole turn, after the message is recorded |
| SessionSpec.OkContinuesWalk | streamlit_app.py:201-204 | with questions left, an ok-word poses the next one |
| SessionSpec.OkAfterWalk | streamlit_app.py:204-207 | once every question was posed, an ok-word brings the fallback message |
| SessionSpec.AnswerAdvances | streamlit_app.py:211-213 | during a walk an answer brings the next question and no model reply |
| SessionSpec.WalkStep | streamlit_app.py:211-213 | after an answer, the conversation grows by the answer and the next question, and the cursor moves one step |
| SessionSpec.WalkAdvances | streamlit_app.py:210-213 | the same for the whole turn of any other message |
| SessionSpec.ExhaustedStep | streamlit_app.py:211-233 | past the last question, any other message brings the notice and then the model's reply |
| SessionSpec.WalkExhausted | streamlit_app.py:211-233 | the same for the whole turn; the cursor stays at the end, so the notice comes again next time |
| SessionSpec.FreeFormReply | streamlit_app.py:219-233 | outside a walk, any other message appends only the model's reply to the system prompt plus the whole conversation |
| SessionSpec.ReadyValid | streamlit_app.py:201-203 | making the questions keeps the cursor within the list |
| SessionSpec.DispatchValid | streamlit_app.py:162-233 | every kind of answer keeps the cursor within the list |
| SessionSpec.TurnValid | streamlit_app.py:155-233 | every turn keeps the cursor within the list |
| SessionSpec.DispatchCursor | streamlit_app.py:162-233 | the cursor moves at most one step, except when the questions are made anew |
| SessionSpec.TurnCursor | streamlit_app.py:155-233 | the same for a whole turn |
| SessionSpec.ReportButtonAtEnd | streamlit_app.py:256 | the report button is shown exactly when every question was posed |

## Left out

- Rendering is not modelled: the chat history, the success banners, the text areas and the Copy buttons with their JavaScript. The model keeps only the state these show.
- Session.ChatSession.Upload: the upload is modelled as a single event. In the application the upload block has no record of which file it has already read, so it runs again on every rerun while a file stays in the uploader, and each time it clears the questions and the cursor before the chat message or button click is handled. With the file left in place, the answer to the first question therefore gets a free-form reply instead of the next question, and the report button is never shown. `SessionSpec.WalkAdvances` and `SessionSpec.ReportButtonAtEnd` describe the application under the single-event reading.
- Streamlit's rerun model is not modelled. Each call of `HandleInput` is one run of the script's input block. `st.stop()` is a return.
- The OpenAI client is not modelled. Each of the three requests goes to a function passed as a parameter (`Completion`), which maps the messages sent to the reply text. The model name, temperature, streaming and API errors are left out, and the API-key check at startup is not modelled.
- pypdf is not modelled: a PDF is given by what `extract_text` yields or raises for each page (`PdfText.Pdf`).
- SessionSpec.ReportDraftTitled: proved only for a one-line title. A file name holding a line break would give a title of several lines, and nothing in the model rules that out.
- The prompt texts are constants copied as the program writes them. Nothing is proved about their wording.
- `Text.LowerChar` lower-cases ASCII and full-width Latin capitals and the Kelvin sign, not all of Unicode; Python's `lower` maps many more characters, some of them to more than one character.
- `Text.IsDigit` covers ASCII and full-width digits only; Python's `\d` also matches other Unicode decimal digits.
- `os.path.splitext` follows POSIX rules; Windows separators are not modelled. The `try`/`except` around the file name is left out, since a name is always given.
- An upload could be expected to drop an earlier draft, but the upload code never touches `report_draft`, so the draft survives an upload. The model follows the code (`SessionSpec.UploadResets`).
- `generate_report_draft` is the function `SessionSpec.ReportDraft`, called by `Session.ChatSession.StoreDraft`. It is not a separate method.
- The guard before a report (no document and no user message) can never fire, because the message being handled is already recorded. It is modelled as written and proved dead (`SessionSpec.GuardNeverFires`).
- `extract_questions` is not called by the chat application. It is modelled on its own, with `max_q` as a parameter; its default of 10 is not fixed.
