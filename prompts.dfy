/** The fixed wording of the chat: the messages the assistant appends and
    the prompts of the three requests to the chat model. Which of them is
    appended is what the session model states; their text is kept as the
    application writes it. */
module Prompts {

  /** The assistant's opening message. */
  const Welcome: string := "💬 研修お疲れさまでした！\nまずは研修ドキュメント（PDF）をアップロードしてください。\nアップできたら **ok** とだけ送ってください。"

  /** The report title used until a file name gives one. */
  const DefaultTitle: string := "研修レポート"

  /** The system prompt of the question request. */
  const QuestionSystem: string := "あなたは“研修のふり返り”を促す専門家です。以下の資料抜粋をざっくり把握し、学習者が答えやすい自然な問いを日本語で短く3～4文（1文=1問い）作ってください。・『Q1.』などの番号や記号は付けない\n・1行1問い、簡潔、具体\n・最初は感想→次に学び→最後に現場での適用/次の一歩、の順が望ましい"

  /** Opens the user prompt of the question request. */
  const ExcerptHead: string := "【資料抜粋】\n"

  /** Follows the excerpt in the question request. */
  const OutputHead: string := "\n\n出力：箇条書き（- で始める）。"

  /** Follows the number of questions asked for. */
  const OutputTail: string := "個。"

  /** Joins the head and the tail of a long document. */
  const SnippetGap: string := "\n...\n"

  /** Put before the first question of a walk. */
  const Intro: string := "じゃあ今回の研修を振り返っていきましょう！\n"

  /** Put after every question. */
  const AnswerFreely: string := "\n\n自由に書いてください。"

  /** The system prompt of the report request. */
  const EditorSystem: string := "あなたは日本語で、簡潔で誇張のない文体の編集者です。事実に基づき、断定しすぎず、丁寧に書きます。"

  /** The first line of the report request's user prompt (the template's
      opening line break is not part of it). */
  const ReportTask: string := "次の情報（PDF抜粋と受講生の回答）だけを根拠に、短い感想文を作ってください。"

  /** The report request's user prompt from its first line to the title. */
  const ReportFormat: string := "\n- 出力フォーマットは厳守：最初の行に【"

  /** From the title to the document excerpt. */
  const ReportRules: string := "】、空行1つ、次の行から本文のみ。\n- 本文は300〜450文字程度。比喩や煽りは使わず、断定しすぎない表現（〜と感じた／〜に気づいた等）を用いる。\n- 事実にない内容は書かない。推測・決めつけ・一般化のしすぎを避ける。\n- 箇条書きにしない。小見出し（はじめに 等）は付けない。\n- 「です・ます」調で統一。末尾に注記や指示文を入れない。\n\n[PDF抜粋]\n"

  /** The label between the excerpt and the user's answers (the line break
      after it is not part of it). */
  const ReportAnswers: string := "\n\n[受講生の回答]"

  /** Asks for a document and answers before a report. */
  const GuardMsg: string := "まずはPDFのアップロードと、いくつかの質問への回答をお願いします。"

  /** Answers an ok-word while no document is loaded. */
  const NoDocMsg: string := "まだPDFが読み込まれていないようです。先に研修ドキュメント（PDF）をアップしてください。"

  /** Answers an ok-word when no question is left to ask. */
  const FallbackMsg: string := "資料から問いを作れませんでした。まずは**感想を気軽に書いてください😉**"

  /** Says the planned questions are over. */
  const WalkDoneMsg: string := "ありがとう！予定していた問いは以上です。必要なら「できた」と送るとドラフトを作成します。"

  /** The system prompt of a free-form reply. */
  const ChatExpert: string := "あなたは『研修レポート作成を支援する専門家』です。丁寧で論理的に、文脈に沿って分かりやすく説明してください。"

  /** Put before the document excerpt in a free-form reply. */
  const ContextHeader: string := "\n\n--- 参考ドキュメント抜粋 ---\n"
}
