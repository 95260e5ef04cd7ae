/** The session as the application keeps it: one object whose fields are
    the session state, changed in place by an upload, by posing the next
    question and by the handling of each chat message. Each method is
    proved to leave the state its counterpart in `SessionSpec` describes. */
module Session {
  import opened Wrappers
  import opened Text
  import opened Prompts
  import PdfText
  import QuestionParser
  import opened SessionSpec

  /** `make_questions_from_doc`: one request to the model, then the line
      parser's loop over its reply. */
  method MakeQuestionsFromDoc(docText: string, n: nat, llm: Completion) returns (qs: seq<string>)
    ensures qs == MakeQuestions(docText, n, llm)
  {
    var reply := llm(QuestionRequest(docText, n));
    qs := QuestionParser.ParseQuestionsLoop(reply, n);
  }

  class ChatSession {
    var docText: string
    var docPages: nat
    var questions: seq<string>
    var qIndex: nat
    var messages: seq<Message>
    var reportDraft: Option<string>
    var docTitle: string

    function Snap(): Snapshot
      reads this
    {
      Snapshot(docText, docPages, questions, qIndex, messages, reportDraft, docTitle)
    }

    ghost predicate Valid()
      reads this
    {
      SessionSpec.Valid(Snap())
    }

    /** A new session: no document, no questions, the welcome message. */
    constructor()
      ensures Snap() == Initial && Valid()
    {
      docText := "";
      docPages := 0;
      questions := [];
      qIndex := 0;
      docTitle := DefaultTitle;
      messages := [Message(Assistant, Welcome)];
      reportDraft := None;
    }

    /** A file arrives: read it, take its stem as the title, drop the
        questions. */
    method Upload(pdf: PdfText.Pdf, name: string)
      modifies this
      ensures Snap() == AfterUpload(old(Snap()), pdf, name) && Valid()
    {
      var text, pages := PdfText.ReadPdfTextLoop(pdf);
      docText, docPages := text, pages;
      var stem := Stem(name);
      if stem != [] {
        docTitle := stem;
      }
      questions, qIndex := [], 0;
    }

    /** `ask_next_question`: pose the question under the cursor, if any. */
    method AskNextQuestion(prefix: bool) returns (shown: bool)
      requires Valid()
      modifies this
      ensures (Snap(), shown) == AskNext(old(Snap()), prefix) && Valid()
    {
      if qIndex < |questions| {
        var q := questions[qIndex];
        qIndex := qIndex + 1;
        var msg := QuestionMessage(q, prefix && qIndex == 1);
        messages := messages + [Message(Assistant, msg)];
        return true;
      }
      return false;
    }

    /** Make a draft and keep it. */
    method StoreDraft(reportLlm: Completion)
      modifies this
      ensures Snap() == WithDraft(old(Snap()), reportLlm)
    {
      ghost var before := Snap();
      reportDraft := Some(ReportDraft(Snap(), reportLlm));
      DraftStored(before, Snap(), reportLlm);
    }

    /** The report button, shown once every question was posed, makes and
        keeps a draft. */
    method PressReportButton(reportLlm: Completion)
      requires ReportButtonShown(Snap())
      modifies this
      ensures Snap() == WithDraft(old(Snap()), reportLlm)
    {
      StoreDraft(reportLlm);
    }

    /** A done-word: the guidance when there is neither a document nor a
        user message, else a new draft. */
    method ReportOnRequest(reportLlm: Completion)
      modifies this
      ensures Snap() == Report(old(Snap()), reportLlm)
    {
      if docText == [] && !HasUserMessage(messages) {
        messages := messages + [Message(Assistant, GuardMsg)];
        return;
      }
      StoreDraft(reportLlm);
    }

    /** Make the questions from the document when there are none yet. */
    method PrepareQuestions(questionLlm: Completion)
      modifies this
      ensures Snap() == Ready(old(Snap()), questionLlm)
    {
      if questions == [] {
        var qs := MakeQuestionsFromDoc(docText, 3, questionLlm);
        questions, qIndex := qs, 0;
      }
    }

    /** An ok-word: remind of the upload, or make the questions if there
        are none and pose the next one. */
    method ConfirmUpload(questionLlm: Completion)
      requires Valid()
      modifies this
      ensures Snap() == Confirm(old(Snap()), questionLlm) && Valid()
    {
      if docText == [] {
        messages := messages + [Message(Assistant, NoDocMsg)];
        return;
      }
      PrepareQuestions(questionLlm);
      var shown := AskNextQuestion(true);
      if !shown {
        messages := messages + [Message(Assistant, FallbackMsg)];
      }
    }

    /** Any other message: during a walk the next question, or past its
        end the notice; then, unless a question was posed, the model's
        free-form reply. */
    method AnswerMessage(chatLlm: Completion)
      requires Valid()
      modifies this
      ensures Snap() == Answer(old(Snap()), chatLlm) && Valid()
    {
      if questions != [] && qIndex > 0 && qIndex <= |questions| {
        var shown := AskNextQuestion(false);
        if shown {
          return;
        }
        messages := messages + [Message(Assistant, WalkDoneMsg)];
      }
      var context := if docText != [] then Take(docText, 6000) else "";
      var system := ChatExpert + (if context != [] then ContextHeader + context else "");
      var reply := chatLlm([Message(System, system)] + messages);
      messages := messages + [Message(Assistant, reply)];
    }

    /** One chat message: record it, then answer it by its kind. */
    method HandleInput(prompt: string, questionLlm: Completion, reportLlm: Completion, chatLlm: Completion)
      requires Valid()
      modifies this
      ensures Snap() == Turn(old(Snap()), prompt, questionLlm, reportLlm, chatLlm) && Valid()
    {
      if prompt == [] {
        return;
      }
      ghost var before := Snap();
      messages := messages + [Message(User, prompt)];
      assert Snap() == Heard(before, prompt);
      var normalized := Lower(Strip(prompt));
      ghost var k := Classify(prompt);
      TurnRecords(before, prompt, k, questionLlm, reportLlm, chatLlm);
      if IsDoneWord(normalized) {
        ReportOnRequest(reportLlm);
      } else if IsOkWord(normalized) {
        ConfirmUpload(questionLlm);
      } else {
        AnswerMessage(chatLlm);
      }
    }
  }
}
