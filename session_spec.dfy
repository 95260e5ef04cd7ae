/** The chat session of the report assistant, on values: the session state,
    the upload reset, the question cursor, the per-message dispatch and the
    pure helpers they use (the document snippet, the question request, the
    report draft and its title line, the file-name stem). The chat model is
    not modelled: each request goes to a function given as a parameter. */
module SessionSpec {
  import opened Wrappers
  import opened Text
  import opened Prompts
  import PdfText
  import QuestionParser

  datatype Role = User | Assistant | System

  datatype Message = Message(role: Role, content: string)

  /** A chat model: what it replies to a list of messages. */
  type Completion = seq<Message> -> string

  /** The session state. `reportDraft` is `None` until a draft was made. */
  datatype Snapshot = Snapshot(
    docText: string,
    docPages: nat,
    questions: seq<string>,
    qIndex: nat,
    messages: seq<Message>,
    reportDraft: Option<string>,
    docTitle: string)

  /** The state of a new session. */
  const Initial: Snapshot :=
    Snapshot("", 0, [], 0, [Message(Assistant, Welcome)], None, DefaultTitle)

  /** The cursor never passes the end of the question list. */
  predicate Valid(s: Snapshot) {
    s.qIndex <= |s.questions|
  }

  lemma InitialValid()
    ensures Valid(Initial) && Initial.messages != [] && Initial.reportDraft.None?
  {
  }

  // ---------------------------------------------------------------------
  // The file-name stem (`os.path.splitext(name)[0]`, POSIX rules)
  // ---------------------------------------------------------------------

  /** `s.rfind(c)`: the index of the last `c` in `s`, or -1. */
  function RFind(s: string, c: char): (r: int)
    ensures -1 <= r < |s|
    ensures r >= 0 ==> s[r] == c
    ensures forall k :: r < k < |s| ==> s[k] != c
    decreases |s|
  {
    if s == [] then -1
    else if s[|s| - 1] == c then |s| - 1
    else RFind(s[..|s| - 1], c)
  }

  /** Where the extension starts: at the last '.', if it comes after the
      last '/' and the file name has a character other than '.' before it;
      otherwise there is no extension and the cut is at the end. */
  function ExtStart(p: string): (r: nat)
    ensures r <= |p|
  {
    var sep := RFind(p, '/');
    var dot := RFind(p, '.');
    if dot > sep && (exists k :: sep < k < dot && p[k] != '.') then dot else |p|
  }

  function Stem(p: string): string {
    p[..ExtStart(p)]
  }

  /** The stem is empty only for an empty name, so the title of the
      session changes on every upload of a named file. */
  lemma StemEmpty(p: string)
    ensures Stem(p) == [] <==> p == []
  {
  }

  /** A character that is not `c` at the end leaves `rfind` alone. */
  lemma {:induction false} RFindAppend(s: string, t: string, c: char)
    requires forall k :: 0 <= k < |t| ==> t[k] != c
    ensures RFind(s + t, c) == RFind(s, c)
    decreases |t|
  {
    if t != [] {
      assert (s + t)[|s + t| - 1] == t[|t| - 1];
      assert RFind(s + t, c) == RFind((s + t)[..|s + t| - 1], c);
      assert (s + t)[..|s + t| - 1] == s + t[..|t| - 1];
      RFindAppend(s, t[..|t| - 1], c);
    } else {
      assert s + t == s;
    }
  }

  /** Splitting `b + "." + e` gives back `b`, when the extension `e` holds
      neither '.' nor '/' and the file name in `b` is not only dots. */
  lemma StemOfName(b: string, e: string)
    requires forall k :: 0 <= k < |e| ==> e[k] != '.' && e[k] != '/'
    requires exists k :: RFind(b, '/') < k < |b| && b[k] != '.'
    ensures Stem(b + "." + e) == b
  {
    var p := b + "." + e;
    assert p == (b + ".") + e;
    RFindAppend(b + ".", e, '.');
    RFindAppend(b + ".", e, '/');
    RFindAppend(b, ".", '/');
    assert RFind(b + ".", '.') == |b|;
    var k :| RFind(b, '/') < k < |b| && b[k] != '.';
    assert p[k] == b[k];
    assert ExtStart(p) == |b|;
  }

  // ---------------------------------------------------------------------
  // Pure helpers
  // ---------------------------------------------------------------------

  /** The part of the document sent with the question request: the
      stripped text, or, past 9000 characters, its first 6000 characters,
      a gap marker and the last 2500 characters of the unstripped text. */
  function DocSnippet(docText: string): string {
    var snippet := Strip(docText);
    if |snippet| > 9000 then Take(snippet, 6000) + SnippetGap + TakeLast(docText, 2500)
    else snippet
  }

  /** The snippet never exceeds 9000 characters; a short document is sent
      whole, a long one as its head and its tail. */
  lemma SnippetBound(docText: string)
    ensures |DocSnippet(docText)| <= 9000
    ensures |Strip(docText)| <= 9000 ==> DocSnippet(docText) == Strip(docText)
    ensures |Strip(docText)| > 9000 ==>
      var r := DocSnippet(docText);
      |r| == 6000 + |SnippetGap| + 2500 &&
      r[..6000] == Strip(docText)[..6000] &&
      r[|r| - 2500..] == docText[|docText| - 2500..]
  {
    var snippet := Strip(docText);
    if |snippet| > 9000 {
      var r := DocSnippet(docText);
      assert r == Take(snippet, 6000) + SnippetGap + TakeLast(docText, 2500);
      assert r[..6000] == Take(snippet, 6000);
      assert r[|r| - 2500..] == TakeLast(docText, 2500);
    }
  }

  /** The request for questions: the instructions, then the snippet and
      how many questions to write. */
  function QuestionRequest(docText: string, n: nat): seq<Message> {
    [Message(System, QuestionSystem),
     Message(User, ExcerptHead + DocSnippet(docText) + OutputHead + NatToString(n) + OutputTail)]
  }

  /** `make_questions_from_doc`: ask the model and parse its reply. */
  function MakeQuestions(docText: string, n: nat, llm: Completion): seq<string> {
    QuestionParser.ParseQuestions(llm(QuestionRequest(docText, n)), n)
  }

  /** At most `n` questions come back (at least one is asked for). */
  lemma MakeQuestionsBound(docText: string, n: nat, llm: Completion)
    requires n >= 1
    ensures |MakeQuestions(docText, n, llm)| <= n
  {
    QuestionParser.ParseQuestionsBound(llm(QuestionRequest(docText, n)), n);
  }

  /** The first line of the report body, or "" for an empty body. */
  function FirstLine(body: string): (r: string)
    ensures NoLineBreak(r)
  {
    if body == [] then [] else SplitLines(body)[0]
  }

  lemma FirstLineIsPrefix(body: string)
    requires body != []
    ensures FirstLine(body) == body[..LineEnd(body, 0)]
  {
  }

  /** A line that already serves as a title. */
  predicate IsTitled(line: string) {
    StartsWith(line, "【") && '】' in line
  }

  function TitleLine(title: string): string {
    "【" + title + "】"
  }

  /** The body as it is when its first line is a title; otherwise the body
      under a title line and an empty line. */
  function WrapTitle(title: string, body: string): string {
    if IsTitled(FirstLine(body)) then body
    else TitleLine(title) + "\n\n" + body
  }

  /** The wrapped body starts with the title line. */
  lemma WrappedFirstLine(title: string, body: string)
    requires NoLineBreak(title)
    ensures FirstLine(TitleLine(title) + "\n\n" + body) == TitleLine(title)
  {
    var x := TitleLine(title);
    var r := x + "\n\n" + body;
    assert r[..|x|] == x;
    assert NoLineBreak(x) by {
      assert forall k :: 0 < k < |x| - 1 ==> x[k] == title[k - 1];
    }
    LineEndAt(r, x);
    FirstLineIsPrefix(r);
  }

  /** Whatever the model writes, the draft opens with a title line, and
      the model's text is kept whole at its end. */
  lemma WrapTitleTitled(title: string, body: string)
    requires NoLineBreak(title)
    ensures IsTitled(FirstLine(WrapTitle(title, body)))
    ensures var r := WrapTitle(title, body); |body| <= |r| && r[|r| - |body|..] == body
  {
    if !IsTitled(FirstLine(body)) {
      WrappedFirstLine(title, body);
      var t := TitleLine(title);
      assert t[0] == '【' && t[|t| - 1] == '】';
      assert StartsWith(t, "【");
    }
  }

  /** Wrapping a second time changes nothing. */
  lemma WrapTitleIdempotent(title: string, body: string)
    requires NoLineBreak(title)
    ensures WrapTitle(title, WrapTitle(title, body)) == WrapTitle(title, body)
  {
    WrapTitleTitled(title, body);
  }

  /** The contents of the user's messages, in order. */
  function UserAnswers(ms: seq<Message>): (r: seq<string>)
    ensures |r| <= |ms|
    decreases |ms|
  {
    if ms == [] then []
    else
      var rest := UserAnswers(ms[1..]);
      if ms[0].role == User then [ms[0].content] + rest else rest
  }

  /** The report request's user prompt up to the answers: the rules with
      the title, and the document excerpt. */
  function ReportBody(title: string, context: string): string {
    ReportTask + ReportFormat + title + ReportRules + context + ReportAnswers
  }

  /** The user prompt of the report request. */
  function ReportPrompt(title: string, context: string, answers: string): string {
    Framed(ReportBody(title, context), answers)
  }

  /** The template of the source, with its opening and closing line breaks,
      stripped as a whole. */
  function ReportTemplate(title: string, context: string, answers: string): string {
    StrippedTemplate(ReportBody(title, context), answers)
  }

  function Framed(body: string, answers: string): string {
    body + (if answers == [] then "" else "\n" + answers)
  }

  function StrippedTemplate(body: string, answers: string): string {
    Strip("\n" + (body + "\n" + answers + "\n"))
  }

  lemma TemplateEnds(title: string, context: string)
    ensures var b := ReportBody(title, context); b != [] && !IsSpace(b[0]) && !IsSpace(b[|b| - 1])
  {
    assert ReportTask != [] && !IsSpace(ReportTask[0]);
    assert ReportAnswers != [] && !IsSpace(ReportAnswers[|ReportAnswers| - 1]);
    var b := ReportBody(title, context);
    assert b[0] == ReportTask[0];
    assert b[|b| - 1] == ReportAnswers[|ReportAnswers| - 1];
  }

  lemma OpeningBreak(rest: string)
    requires rest != [] && !IsSpace(rest[0])
    ensures Strip("\n" + rest) == RStrip(rest, IsSpace)
  {
    LStripPrefix("\n", rest, IsSpace);
  }

  /** Stripping a text that opens with a line break and closes with
      whitespace leaves what lies between, when that starts and ends with
      other characters. */
  lemma StripFrame(p: string, tail: string)
    requires p != [] && !IsSpace(p[0]) && !IsSpace(p[|p| - 1])
    requires forall k :: 0 <= k < |tail| ==> IsSpace(tail[k])
    ensures Strip("\n" + (p + tail)) == p
  {
    assert (p + tail)[0] == p[0];
    OpeningBreak(p + tail);
    RStripSuffix(p, tail, IsSpace);
  }

  lemma FramedIsTemplate(body: string, answers: string)
    requires body != [] && !IsSpace(body[0]) && !IsSpace(body[|body| - 1])
    requires answers == [] || !IsSpace(answers[|answers| - 1])
    ensures Framed(body, answers) == StrippedTemplate(body, answers)
  {
    if answers == [] {
      FramedNoAnswers(body);
    } else {
      FramedAnswers(body, answers);
    }
  }

  lemma FramedNoAnswers(body: string)
    requires body != [] && !IsSpace(body[0]) && !IsSpace(body[|body| - 1])
    ensures Framed(body, []) == StrippedTemplate(body, [])
  {
    assert Framed(body, []) == body by {
      assert body + "" == body;
    }
    assert StrippedTemplate(body, []) == body by {
      var e: string := [];
      assert body + "\n" + e + "\n" == body + "\n\n";
      StripFrame(body, "\n\n");
    }
  }

  lemma FramedAnswers(body: string, answers: string)
    requires body != [] && !IsSpace(body[0]) && !IsSpace(body[|body| - 1])
    requires answers != [] && !IsSpace(answers[|answers| - 1])
    ensures Framed(body, answers) == StrippedTemplate(body, answers)
  {
    var p := body + "\n" + answers;
    assert p[0] == body[0] && p[|p| - 1] == answers[|answers| - 1];
    assert Framed(body, answers) == p by {
      assert body + ("\n" + answers) == p;
    }
    assert StrippedTemplate(body, answers) == p by {
      StripFrame(p, "\n");
    }
  }

  /** With stripped answers, as the draft uses them, the prompt is the
      stripped template of the source. */
  lemma ReportPromptIsTemplate(title: string, context: string, answers: string)
    requires answers == Strip(answers)
    ensures ReportPrompt(title, context, answers) == ReportTemplate(title, context, answers)
  {
    TemplateEnds(title, context);
    FramedIsTemplate(ReportBody(title, context), answers);
  }

  function ReportTitle(s: Snapshot): string {
    if s.docTitle != [] then s.docTitle else DefaultTitle
  }

  /** `generate_report_draft`: the model writes from the first 3500
      characters of the document and the user's answers; its reply, stripped,
      is put under a title line unless it starts with one. */
  function ReportDraft(s: Snapshot, llm: Completion): string {
    WrapTitle(ReportTitle(s), Strip(llm(ReportRequest(s))))
  }

  /** The request for the draft: the editor's instructions, then the prompt
      with the title, the stripped head of the document and the user's
      answers joined by line breaks and stripped. */
  function ReportRequest(s: Snapshot): seq<Message> {
    var answers := Strip(Join(UserAnswers(s.messages), "\n"));
    var context := Strip(Take(s.docText, 3500));
    [Message(System, EditorSystem), Message(User, ReportPrompt(ReportTitle(s), context, answers))]
  }

  lemma DefaultTitleOneLine()
    ensures NoLineBreak(DefaultTitle)
  {
  }

  /** A draft always opens with a title line, when the title is one line. */
  lemma ReportDraftTitled(s: Snapshot, llm: Completion)
    requires NoLineBreak(s.docTitle)
    ensures IsTitled(FirstLine(ReportDraft(s, llm)))
  {
    if s.docTitle == [] {
      DefaultTitleOneLine();
    }
    WrapTitleTitled(ReportTitle(s), Strip(llm(ReportRequest(s))));
  }

  /** The system prompt of a free-form reply: the instructions and, with a
      document, its first 6000 characters. */
  function ChatSystem(docText: string): string {
    var context := Take(docText, 6000);
    ChatExpert + (if context != [] then ContextHeader + context else "")
  }

  // ---------------------------------------------------------------------
  // Upload
  // ---------------------------------------------------------------------

  /** A file was uploaded: its text and page count replace the document,
      its stem (when not empty) the title, and the questions are dropped. */
  function AfterUpload(s: Snapshot, pdf: PdfText.Pdf, name: string): Snapshot {
    var read := PdfText.ReadPdfText(pdf);
    var stem := Stem(name);
    s.(docText := read.0, docPages := read.1,
       docTitle := if stem != [] then stem else s.docTitle,
       questions := [], qIndex := 0)
  }

  /** An upload restarts the question walk, keeps the conversation and any
      draft, and titles the session after the file (for a named file). */
  lemma UploadResets(s: Snapshot, pdf: PdfText.Pdf, name: string)
    ensures var u := AfterUpload(s, pdf, name);
      && Valid(u) && u.questions == [] && u.qIndex == 0
      && u.messages == s.messages && u.reportDraft == s.reportDraft
      && (u.docText, u.docPages) == PdfText.ReadPdfText(pdf)
      && u.docTitle == (if name == [] then s.docTitle else Stem(name))
  {
    StemEmpty(name);
  }

  lemma PdfSuffix(b: string)
    ensures b + ".pdf" == b + "." + "pdf" && forall k :: 0 <= k < 3 ==> "pdf"[k] != '.' && "pdf"[k] != '/'
  {
    assert "." + "pdf" == ".pdf";
    assert b + ("." + "pdf") == b + "." + "pdf";
  }

  /** A file named `b.pdf` titles the session `b`. */
  lemma StemOfPdfName(b: string)
    requires exists k :: RFind(b, '/') < k < |b| && b[k] != '.'
    ensures Stem(b + ".pdf") == b
  {
    PdfSuffix(b);
    StemOfName(b, "pdf");
  }

  // ---------------------------------------------------------------------
  // The question cursor (`ask_next_question`)
  // ---------------------------------------------------------------------

  /** The message that poses question `q`; `first` adds the opening line. */
  function QuestionMessage(q: string, first: bool): string {
    (if first then Intro else "") + q + AnswerFreely
  }

  function Say(s: Snapshot, text: string): Snapshot {
    s.(messages := s.messages + [Message(Assistant, text)])
  }

  /** Pose the next question, if any is left, and say whether one was. */
  function AskNext(s: Snapshot, prefix: bool): (r: (Snapshot, bool)) {
    if s.qIndex < |s.questions| then
      var q := s.questions[s.qIndex];
      var next := s.(qIndex := s.qIndex + 1);
      (Say(next, QuestionMessage(q, prefix && next.qIndex == 1)), true)
    else (s, false)
  }

  /** `m` holds `q` somewhere. */
  predicate Contains(m: string, q: string) {
    exists i :: 0 <= i <= |m| && StartsWith(m[i..], q)
  }

  lemma QuestionMessageContains(q: string, first: bool)
    ensures Contains(QuestionMessage(q, first), q)
  {
    var lead := if first then Intro else "";
    var m := QuestionMessage(q, first);
    assert m == lead + q + AnswerFreely;
    assert m[|lead|..][..|q|] == q;
  }

  /** With a question left, exactly one assistant message is appended; it
      poses that question, and the cursor moves past it. Nothing else
      changes. */
  lemma AskNextShows(s: Snapshot, prefix: bool)
    requires s.qIndex < |s.questions|
    ensures var (t, shown) := AskNext(s, prefix);
      && shown
      && t.qIndex == s.qIndex + 1
      && |t.messages| == |s.messages| + 1 && t.messages[..|s.messages|] == s.messages
      && t.messages[|s.messages|].role == Assistant
      && Contains(t.messages[|s.messages|].content, s.questions[s.qIndex])
      && t.(qIndex := s.qIndex, messages := s.messages) == s
  {
    QuestionMessageContains(s.questions[s.qIndex], prefix && s.qIndex == 0);
    var t := AskNext(s, prefix).0;
    assert t.messages[..|s.messages|] == s.messages;
  }

  /** With no question left, nothing happens. */
  lemma AskNextExhausted(s: Snapshot, prefix: bool)
    requires s.qIndex >= |s.questions|
    ensures AskNext(s, prefix) == (s, false)
  {
  }

  /** The opening line goes only with the first question of a walk and
      only when asked for; every question ends with the invitation to
      answer freely. */
  lemma AskNextIntro(s: Snapshot, prefix: bool)
    requires s.qIndex < |s.questions|
    ensures var t := AskNext(s, prefix).0;
      var m := t.messages[|t.messages| - 1].content;
      var q := s.questions[s.qIndex];
      m == (if prefix && s.qIndex == 0 then Intro + q else q) + AnswerFreely
  {
  }

  lemma AskNextValid(s: Snapshot, prefix: bool)
    requires Valid(s)
    ensures Valid(AskNext(s, prefix).0)
  {
  }

  // ---------------------------------------------------------------------
  // The dispatch of one chat message
  // ---------------------------------------------------------------------

  /** The words that ask for the report. */
  predicate IsDoneWord(w: string) {
    w == "できた" || w == "done" || w == "完了" || w == "完成" || w == "終わった"
  }

  /** The words that confirm the upload and start the questions. */
  predicate IsOkWord(w: string) {
    || w == "ok" || w == "\U{FF4F}\U{FF4B}" || w == "おk" || w == "了解"
    || w == "upした" || w == "アップした" || w == "done" || w == "完了"
  }

  /** How the dispatch reads a message. */
  datatype Kind = DoneWord | OkWord | Other

  /** The message stripped and lower-cased, checked against the
      done-words first and the ok-words second. */
  function Classify(prompt: string): Kind {
    var w := Lower(Strip(prompt));
    if IsDoneWord(w) then DoneWord
    else if IsOkWord(w) then OkWord
    else Other
  }

  /** A message is an ok-word only when it is not a done-word. */
  lemma ClassifyMeaning(prompt: string)
    ensures var w := Lower(Strip(prompt));
      && (Classify(prompt) == DoneWord <==> IsDoneWord(w))
      && (Classify(prompt) == OkWord <==> IsOkWord(w) && !IsDoneWord(w))
  {
  }

  /** "done" and "完了" are in both lists; the done-words win, whatever the
      case and the surrounding whitespace. */
  lemma SharedWordsReport(prompt: string)
    requires Lower(Strip(prompt)) == "done" || Lower(Strip(prompt)) == "完了"
    ensures IsOkWord(Lower(Strip(prompt))) && Classify(prompt) == DoneWord
  {
  }

  lemma SpacedDoneStripped()
    ensures Strip(" Done ") == "Done"
  {
    assert " Done " == " " + "Done ";
    LStripPrefix(" ", "Done ", IsSpace);
    assert "Done " == "Done" + " ";
    RStripSuffix("Done", " ", IsSpace);
  }

  lemma LowerDone()
    ensures Lower("Done") == "done"
  {
  }

  /** Surrounding whitespace and capitals do not matter. */
  lemma SpacedDone()
    ensures Classify(" Done ") == DoneWord
  {
    SpacedDoneStripped();
    LowerDone();
  }

  lemma UpperOk()
    ensures Classify("OK") == OkWord
  {
    StripStripped("OK");
    assert Lower("OK") == "ok";
  }

  /** The Kelvin sign lower-cases to 'k', so it spells an ok-word too. */
  lemma KelvinOk()
    ensures Classify("o\U{212A}") == OkWord
  {
    StripStripped("o\U{212A}");
    assert Lower("o\U{212A}") == "ok";
  }

  /** Full-width capitals are lower-cased to a listed ok-word. */
  lemma FullWidthOk()
    ensures Classify("ＯＫ") == OkWord
  {
    StripStripped("ＯＫ");
    assert Lower("ＯＫ") == "\U{FF4F}\U{FF4B}";
  }

  predicate HasUserMessage(ms: seq<Message>) {
    exists k :: 0 <= k < |ms| && ms[k].role == User
  }

  /** The question walk is under way: a question has been posed and the
      cursor is within the list. */
  predicate Walking(s: Snapshot) {
    s.questions != [] && 0 < s.qIndex <= |s.questions|
  }

  /** The state right after the user's message is recorded. */
  function Heard(s: Snapshot, prompt: string): Snapshot {
    s.(messages := s.messages + [Message(User, prompt)])
  }

  /** The reply of the chat model to the conversation so far. */
  function Chat(s: Snapshot, llm: Completion): Snapshot {
    Say(s, llm([Message(System, ChatSystem(s.docText))] + s.messages))
  }

  /** The session once a new draft is kept; nothing else changes. */
  function WithDraft(s: Snapshot, reportLlm: Completion): Snapshot {
    s.(reportDraft := Some(ReportDraft(s, reportLlm)))
  }

  /** A state that differs from `s` only in holding its draft is the
      state `WithDraft` describes. */
  lemma DraftStored(s: Snapshot, t: Snapshot, reportLlm: Completion)
    requires t.docText == s.docText && t.docPages == s.docPages && t.docTitle == s.docTitle
    requires t.questions == s.questions && t.qIndex == s.qIndex && t.messages == s.messages
    requires t.reportDraft == Some(ReportDraft(s, reportLlm))
    ensures t == WithDraft(s, reportLlm)
  {
  }

  /** The answer to a done-word. */
  function Report(s: Snapshot, reportLlm: Completion): Snapshot {
    if s.docText == [] && !HasUserMessage(s.messages) then Say(s, GuardMsg)
    else WithDraft(s, reportLlm)
  }

  /** The question list an ok-word works on: made from the document when
      there is none yet. */
  function Ready(s: Snapshot, questionLlm: Completion): Snapshot {
    if s.questions == [] then s.(questions := MakeQuestions(s.docText, 3, questionLlm), qIndex := 0) else s
  }

  /** The answer to an ok-word. */
  function Confirm(s: Snapshot, questionLlm: Completion): Snapshot {
    if s.docText == [] then Say(s, NoDocMsg)
    else
      var asked := AskNext(Ready(s, questionLlm), true);
      if asked.1 then asked.0 else Say(asked.0, FallbackMsg)
  }

  /** The answer to any other message: the next question during a walk;
      past its end a notice, then a free-form reply; outside a walk the
      free-form reply alone. */
  function Answer(s: Snapshot, chatLlm: Completion): Snapshot {
    if Walking(s) && AskNext(s, false).1 then AskNext(s, false).0
    else Chat(if Walking(s) then Say(s, WalkDoneMsg) else s, chatLlm)
  }

  /** One chat message: an empty one does nothing; otherwise it is
      recorded and answered according to its kind. */
  function Turn(s: Snapshot, prompt: string,
                questionLlm: Completion, reportLlm: Completion, chatLlm: Completion): Snapshot
  {
    if prompt == [] then s
    else Dispatch(Heard(s, prompt), Classify(prompt), questionLlm, reportLlm, chatLlm)
  }

  /** The answer to a recorded message of kind `k`. */
  function Dispatch(t: Snapshot, k: Kind,
                    questionLlm: Completion, reportLlm: Completion, chatLlm: Completion): Snapshot
  {
    match k
    case DoneWord => Report(t, reportLlm)
    case OkWord => Confirm(t, questionLlm)
    case Other => Answer(t, chatLlm)
  }

  /** An empty message changes nothing. */
  lemma EmptyPrompt(s: Snapshot, questionLlm: Completion, reportLlm: Completion, chatLlm: Completion)
    ensures Turn(s, "", questionLlm, reportLlm, chatLlm) == s
  {
  }

  /** Any other message is recorded, then answered by its kind. */
  lemma TurnRecords(s: Snapshot, prompt: string, k: Kind,
                    questionLlm: Completion, reportLlm: Completion, chatLlm: Completion)
    requires prompt != [] && Classify(prompt) == k
    ensures Turn(s, prompt, questionLlm, reportLlm, chatLlm)
         == Dispatch(Heard(s, prompt), k, questionLlm, reportLlm, chatLlm)
  {
  }

  /** The guidance for a report without answers is never given: the
      message being handled is itself a user message. */
  lemma GuardNeverFires(s: Snapshot, prompt: string)
    ensures HasUserMessage(Heard(s, prompt).messages)
  {
    assert Heard(s, prompt).messages[|s.messages|].role == User;
  }

  lemma ReportWithAnswers(t: Snapshot, reportLlm: Completion)
    requires HasUserMessage(t.messages)
    ensures Report(t, reportLlm) == WithDraft(t, reportLlm)
  {
  }

  /** A done-word makes the draft from the conversation including itself,
      and nothing else: no question is posed even for "done" and "完了",
      which are ok-words too, and the walk stays where it was. */
  lemma DoneWordReports(s: Snapshot, prompt: string,
                        questionLlm: Completion, reportLlm: Completion, chatLlm: Completion)
    requires prompt != [] && Classify(prompt) == DoneWord
    ensures var t := Turn(s, prompt, questionLlm, reportLlm, chatLlm);
      && t.reportDraft == Some(ReportDraft(Heard(s, prompt), reportLlm))
      && t.(reportDraft := s.reportDraft) == Heard(s, prompt)
  {
    TurnRecords(s, prompt, DoneWord, questionLlm, reportLlm, chatLlm);
    GuardNeverFires(s, prompt);
    ReportWithAnswers(Heard(s, prompt), reportLlm);
  }

  /** An ok-word with no document only reminds the user to upload one. */
  lemma OkWithoutDocument(s: Snapshot, prompt: string,
                          questionLlm: Completion, reportLlm: Completion, chatLlm: Completion)
    requires prompt != [] && Classify(prompt) == OkWord && s.docText == []
    ensures Turn(s, prompt, questionLlm, reportLlm, chatLlm) == Say(Heard(s, prompt), NoDocMsg)
  {
    TurnRecords(s, prompt, OkWord, questionLlm, reportLlm, chatLlm);
  }

  /** Posing the first question of a fresh list. */
  lemma AskFirst(r: Snapshot)
    requires r.qIndex == 0
    ensures var a := AskNext(r, true);
      && a.0.questions == r.questions
      && a.0.qIndex == (if r.questions == [] then 0 else 1)
      && a.1 == (r.questions != [])
      && a.0.messages == r.messages + (if r.questions == [] then []
           else [Message(Assistant, Intro + r.questions[0] + AnswerFreely)])
  {
    if r.questions != [] {
      assert QuestionMessage(r.questions[0], true) == Intro + r.questions[0] + AnswerFreely;
    } else {
      assert r.messages + [] == r.messages;
    }
  }

  lemma ConfirmStarts(t: Snapshot, questionLlm: Completion)
    requires t.docText != [] && t.questions == []
    ensures var c := Confirm(t, questionLlm);
      var qs := MakeQuestions(t.docText, 3, questionLlm);
      && c.questions == qs
      && c.qIndex == (if qs == [] then 0 else 1)
      && c.messages == t.messages + [Message(Assistant, if qs == [] then FallbackMsg else Intro + qs[0] + AnswerFreely)]
  {
    var r := Ready(t, questionLlm);
    assert r.questions == MakeQuestions(t.docText, 3, questionLlm) && r.qIndex == 0 && r.messages == t.messages;
    AskFirst(r);
  }

  /** An ok-word with a document and no questions yet asks the model for
      three, and poses the first with the opening line, or, when the reply
      gave none, says so. */
  lemma OkStartsWalk(s: Snapshot, prompt: string,
                     questionLlm: Completion, reportLlm: Completion, chatLlm: Completion)
    requires prompt != [] && Classify(prompt) == OkWord
    requires s.docText != [] && s.questions == []
    ensures var t := Turn(s, prompt, questionLlm, reportLlm, chatLlm);
      var qs := MakeQuestions(s.docText, 3, questionLlm);
      var h := Heard(s, prompt);
      && t.questions == qs
      && t.qIndex == (if qs == [] then 0 else 1)
      && t.messages == h.messages + [Message(Assistant, if qs == [] then FallbackMsg else Intro + qs[0] + AnswerFreely)]
  {
    TurnRecords(s, prompt, OkWord, questionLlm, reportLlm, chatLlm);
    ConfirmStarts(Heard(s, prompt), questionLlm);
  }

  /** An ok-word during a walk poses the next question; the list is not
      made again. */
  lemma OkContinuesWalk(s: Snapshot, prompt: string,
                        questionLlm: Completion, reportLlm: Completion, chatLlm: Completion)
    requires prompt != [] && Classify(prompt) == OkWord
    requires s.docText != [] && s.qIndex < |s.questions|
    ensures Turn(s, prompt, questionLlm, reportLlm, chatLlm) == AskNext(Heard(s, prompt), true).0
  {
    TurnRecords(s, prompt, OkWord, questionLlm, reportLlm, chatLlm);
  }

  /** An ok-word after the last question says no questions could be made,
      although they were: the list is not empty, so it is not made again,
      and there is no question left to pose. */
  lemma OkAfterWalk(s: Snapshot, prompt: string,
                    questionLlm: Completion, reportLlm: Completion, chatLlm: Completion)
    requires prompt != [] && Classify(prompt) == OkWord
    requires s.docText != [] && s.questions != [] && s.qIndex >= |s.questions|
    ensures Turn(s, prompt, questionLlm, reportLlm, chatLlm) == Say(Heard(s, prompt), FallbackMsg)
  {
    TurnRecords(s, prompt, OkWord, questionLlm, reportLlm, chatLlm);
  }

  lemma AnswerAdvances(t: Snapshot, chatLlm: Completion)
    requires 0 < t.qIndex < |t.questions|
    ensures Answer(t, chatLlm) == Say(t.(qIndex := t.qIndex + 1), t.questions[t.qIndex] + AnswerFreely)
  {
    var q := t.questions[t.qIndex];
    assert QuestionMessage(q, false) == q + AnswerFreely by {
      assert "" + q == q;
    }
  }

  lemma WalkStep(s: Snapshot, prompt: string,
                 questionLlm: Completion, reportLlm: Completion, chatLlm: Completion)
    requires 0 < s.qIndex < |s.questions|
    ensures var t := Dispatch(Heard(s, prompt), Other, questionLlm, reportLlm, chatLlm);
      && t.questions == s.questions && t.qIndex == s.qIndex + 1
      && t.messages == s.messages + [Message(User, prompt),
           Message(Assistant, s.questions[s.qIndex] + AnswerFreely)]
  {
    var h := Heard(s, prompt);
    var q := s.questions[s.qIndex];
    AnswerAdvances(h, chatLlm);
    assert h.messages + [Message(Assistant, q + AnswerFreely)]
        == s.messages + [Message(User, prompt), Message(Assistant, q + AnswerFreely)];
  }

  /** During a walk any other message is taken as an answer and the next
      question follows, without a reply from the model. */
  lemma WalkAdvances(s: Snapshot, prompt: string,
                     questionLlm: Completion, reportLlm: Completion, chatLlm: Completion)
    requires prompt != [] && Classify(prompt) == Other
    requires 0 < s.qIndex < |s.questions|
    ensures var t := Turn(s, prompt, questionLlm, reportLlm, chatLlm);
      && t.questions == s.questions && t.qIndex == s.qIndex + 1
      && t.messages == s.messages + [Message(User, prompt),
           Message(Assistant, s.questions[s.qIndex] + AnswerFreely)]
  {
    TurnRecords(s, prompt, Other, questionLlm, reportLlm, chatLlm);
    WalkStep(s, prompt, questionLlm, reportLlm, chatLlm);
  }

  /** Once the last question was posed, every further message brings the
      end-of-questions notice and then a free-form reply, and the walk stays
      at its end, so the next message brings the notice again. */
  lemma WalkExhausted(s: Snapshot, prompt: string,
                      questionLlm: Completion, reportLlm: Completion, chatLlm: Completion)
    requires prompt != [] && Classify(prompt) == Other
    requires s.questions != [] && s.qIndex == |s.questions|
    ensures var t := Turn(s, prompt, questionLlm, reportLlm, chatLlm);
      && t == Chat(Say(Heard(s, prompt), WalkDoneMsg), chatLlm)
      && t.questions == s.questions && t.qIndex == |t.questions|
  {
    TurnRecords(s, prompt, Other, questionLlm, reportLlm, chatLlm);
    ExhaustedStep(s, prompt, questionLlm, reportLlm, chatLlm);
  }

  lemma ExhaustedStep(s: Snapshot, prompt: string,
                      questionLlm: Completion, reportLlm: Completion, chatLlm: Completion)
    requires s.questions != [] && s.qIndex == |s.questions|
    ensures var t := Dispatch(Heard(s, prompt), Other, questionLlm, reportLlm, chatLlm);
      && t == Chat(Say(Heard(s, prompt), WalkDoneMsg), chatLlm)
      && t.questions == s.questions && t.qIndex == |t.questions|
  {
  }

  /** Outside a walk any other message gets a free-form reply from the
      model, which sees the system prompt and the whole conversation. */
  lemma FreeFormReply(s: Snapshot, prompt: string,
                      questionLlm: Completion, reportLlm: Completion, chatLlm: Completion)
    requires prompt != [] && Classify(prompt) == Other && !Walking(s)
    ensures var t := Turn(s, prompt, questionLlm, reportLlm, chatLlm);
      var heard := s.messages + [Message(User, prompt)];
      && t.messages == heard + [Message(Assistant, chatLlm([Message(System, ChatSystem(s.docText))] + heard))]
      && t.(messages := s.messages) == s
  {
    TurnRecords(s, prompt, Other, questionLlm, reportLlm, chatLlm);
  }

  lemma ReadyValid(t: Snapshot, questionLlm: Completion)
    requires Valid(t)
    ensures Valid(Ready(t, questionLlm))
  {
  }

  lemma DispatchValid(t: Snapshot, k: Kind,
                      questionLlm: Completion, reportLlm: Completion, chatLlm: Completion)
    requires Valid(t)
    ensures Valid(Dispatch(t, k, questionLlm, reportLlm, chatLlm))
  {
    match k
    case DoneWord =>
    case OkWord =>
      if t.docText != [] {
        ReadyValid(t, questionLlm);
        AskNextValid(Ready(t, questionLlm), true);
      }
    case Other =>
      AskNextValid(t, false);
  }

  /** Every message keeps the cursor within the question list. */
  lemma TurnValid(s: Snapshot, prompt: string,
                  questionLlm: Completion, reportLlm: Completion, chatLlm: Completion)
    requires Valid(s)
    ensures Valid(Turn(s, prompt, questionLlm, reportLlm, chatLlm))
  {
    if prompt != [] {
      var k := Classify(prompt);
      TurnRecords(s, prompt, k, questionLlm, reportLlm, chatLlm);
      DispatchValid(Heard(s, prompt), k, questionLlm, reportLlm, chatLlm);
    }
  }

  /** The cursor moves at most one step, except when the question list is
      made anew, which leaves the cursor at its first or second entry. */
  lemma DispatchCursor(t: Snapshot, k: Kind,
                       questionLlm: Completion, reportLlm: Completion, chatLlm: Completion)
    ensures var u := Dispatch(t, k, questionLlm, reportLlm, chatLlm);
      || (u.questions == t.questions && (u.qIndex == t.qIndex || u.qIndex == t.qIndex + 1))
      || (t.questions == [] && u.qIndex <= 1)
  {
    match k
    case DoneWord =>
    case OkWord =>
      if t.docText != [] {
        var r := Ready(t, questionLlm);
        assert r.questions == t.questions || (t.questions == [] && r.qIndex == 0);
      }
    case Other =>
  }

  lemma TurnCursor(s: Snapshot, prompt: string,
                   questionLlm: Completion, reportLlm: Completion, chatLlm: Completion)
    ensures var t := Turn(s, prompt, questionLlm, reportLlm, chatLlm);
      || (t.questions == s.questions && (t.qIndex == s.qIndex || t.qIndex == s.qIndex + 1))
      || (s.questions == [] && t.qIndex <= 1)
  {
    if prompt != [] {
      var k := Classify(prompt);
      TurnRecords(s, prompt, k, questionLlm, reportLlm, chatLlm);
      DispatchCursor(Heard(s, prompt), k, questionLlm, reportLlm, chatLlm);
    }
  }

  /** The report button shows once the walk has posed every question. */
  predicate ReportButtonShown(s: Snapshot) {
    s.qIndex >= |s.questions| && s.questions != []
  }

  lemma ReportButtonAtEnd(s: Snapshot)
    requires Valid(s)
    ensures ReportButtonShown(s) <==> s.questions != [] && s.qIndex == |s.questions|
  {
  }
}
