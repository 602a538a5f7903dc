/**
 * The YouTube block screen: a full-page iframe overlay that asks two quiz
 * questions before it lets the learner go.  The content script keeps three
 * variables — the overlay, the question index and the last answer — and
 * changes them from `showBlockScreen`, `removeBlockScreen`, `setIframeSrc`,
 * `checkAndBlock` and the runtime message listener.
 *
 * The overlay is modelled by the page its iframe shows (`initial.html`,
 * `question.html`, ...); the extension URL prefix that `chrome.runtime.getURL`
 * adds is left to the platform.  `window.location.replace` is recorded as the
 * last location the tab was sent to.
 */
module YoutubeBlock {
  import opened Wrappers

  datatype Question = Question(question: string, answer: string, description: string)

  /** The fixed quiz. */
  const Questions: seq<Question> := [
    Question("Q1. 高校範囲までで最も画数が多い漢字は？ (音読み/平仮名)", "うつ",
      "高校範囲 (常用漢字および教育漢字) で最も画数が多い漢字は「鬱」で29画"),
    Question("Q2. 全ての漢字の中で最も多い部首は？ (平仮名)", "くさかんむり",
      "最も多い部首は「くさかんむり」で2173字")
  ]

  const InitialPage: string := "initial.html"
  const QuestionPage: string := "question.html"
  const AnswerPage: string := "answer.html"
  const IncorrectPage: string := "incorrect.html"
  const CompletePage: string := "complete.html"

  /** Where every "leave" button sends the tab. */
  const HomeUrl: string := "https://www.nnn.ed.nico/home"

  /** The script's state: the overlay's page (`None` for `blockOverlay === null`), the index, the last answer and the tab's location. */
  datatype Screen = Screen(overlay: Option<string>, questionIndex: nat, lastAnswer: Option<string>, location: Option<string>)

  /** The state when the script starts. */
  const Fresh: Screen := Screen(None, 0, Some(""), None)

  /** `questions[i]`, `undefined` past the end. */
  function QuestionAt(i: nat): (r: Option<Question>)
    ensures r.Some? <==> i < |Questions|
    ensures r.Some? ==> r.value == Questions[i]
  {
    if i < |Questions| then Some(Questions[i]) else None
  }

  // ---------------------------------------------------------------------------
  // The overlay operations, on values

  /** `showBlockScreen()`. */
  function Shown(s: Screen): Screen {
    if s.overlay.Some? then s
    else s.(overlay := Some(InitialPage), questionIndex := 0, lastAnswer := Some(""))
  }

  /** `removeBlockScreen()`. */
  function Removed(s: Screen): Screen {
    s.(overlay := None)
  }

  /** `setIframeSrc(page)`. */
  function WithSrc(s: Screen, page: string): Screen {
    if s.overlay.None? then s else s.(overlay := Some(page))
  }

  /** `checkAndBlock()` once the reply's `hasOverdue` has been read as truthy or not. */
  function Checked(s: Screen, hasOverdue: bool): Screen {
    if hasOverdue then Shown(s) else Removed(s)
  }

  /** An existing overlay is kept as it is; a new one shows the first page, with the quiz reset. */
  lemma {:induction false} ShownSpec(s: Screen)
    ensures Shown(s).overlay.Some? && Shown(s).location == s.location
    ensures s.overlay.Some? ==> Shown(s) == s
    ensures s.overlay.None? ==>
      Shown(s).overlay == Some(InitialPage) && Shown(s).questionIndex == 0 && Shown(s).lastAnswer == Some("")
    ensures Shown(Shown(s)) == Shown(s)
  {
  }

  /** Removing leaves no overlay and touches nothing else; removing twice is removing once. */
  lemma {:induction false} RemovedSpec(s: Screen)
    ensures Removed(s).overlay.None?
    ensures Removed(s).questionIndex == s.questionIndex && Removed(s).lastAnswer == s.lastAnswer
    ensures Removed(s).location == s.location
    ensures s.overlay.None? ==> Removed(s) == s
    ensures Removed(Removed(s)) == Removed(s)
  {
  }

  /** Without an overlay nothing changes; with one, only the page does. */
  lemma {:induction false} WithSrcSpec(s: Screen, page: string)
    ensures s.overlay.None? ==> WithSrc(s, page) == s
    ensures s.overlay.Some? ==> WithSrc(s, page) == s.(overlay := Some(page))
    ensures WithSrc(s, page).overlay.Some? <==> s.overlay.Some?
  {
  }

  /** After the check there is an overlay exactly when some reminder is overdue. */
  lemma {:induction false} CheckedSpec(s: Screen, hasOverdue: bool)
    ensures Checked(s, hasOverdue).overlay.Some? <==> hasOverdue
    ensures hasOverdue && s.overlay.Some? ==> Checked(s, hasOverdue) == s
  {
  }

  // ---------------------------------------------------------------------------
  // The message listener, on values

  /** A runtime message: its `type` (absent when the message or the field is missing) and its `answer`. */
  datatype Message = Message(kind: Option<string>, answer: Option<string>)

  /** What `sendResponse` is given: a question (or `undefined`), the last answer, or nothing. */
  datatype Response = QuestionReply(question: Option<Question>) | AnswerReply(answer: Option<string>) | EmptyReply

  /** The listener returns without answering, answers, or throws before answering. */
  datatype Outcome = NoReply | Replied(response: Response) | Threw

  datatype Step = Step(screen: Screen, outcome: Outcome)

  predicate IsLeaveButton(kind: string) {
    kind == "initial-button-2" || kind == "incorrect-button-1" ||
    kind == "complete-button-1" || kind == "complete-button-2"
  }

  /** The listener's `switch (message.type)`. */
  function Handle(s: Screen, m: Message): Step {
    if m.kind.None? || m.kind.value == "" then Step(s, NoReply)
    else
      var kind := m.kind.value;
      if kind == "get-question" then Step(s, Replied(QuestionReply(QuestionAt(s.questionIndex))))
      else if kind == "get-last-answer" then Step(s, Replied(AnswerReply(s.lastAnswer)))
      else if kind == "initial-button-1" then Step(WithSrc(s, QuestionPage), Replied(EmptyReply))
      else if IsLeaveButton(kind) then Step(s.(location := Some(HomeUrl)), Replied(EmptyReply))
      else if kind == "question-button-1" then
        var recorded := s.(lastAnswer := m.answer);
        match QuestionAt(s.questionIndex)
        case None => Step(recorded, Threw)
        case Some(q) =>
          Step(WithSrc(recorded, if m.answer == Some(q.answer) then AnswerPage else IncorrectPage), Replied(EmptyReply))
      else if kind == "answer-button-1" then
        var next := s.questionIndex + 1;
        Step(WithSrc(s.(questionIndex := next), if next < |Questions| then QuestionPage else CompletePage),
          Replied(EmptyReply))
      else if kind == "ZEN_YOUTUBE_UNBLOCK" then Step(Removed(s), NoReply)
      else if kind == "ZEN_YOUTUBE_BLOCK" then Step(Shown(s), NoReply)
      else Step(s, NoReply)
  }

  /** The message types the listener acts on. */
  predicate Handled(kind: string) {
    kind == "get-question" || kind == "get-last-answer" || kind == "initial-button-1" ||
    IsLeaveButton(kind) || kind == "question-button-1" || kind == "answer-button-1" ||
    kind == "ZEN_YOUTUBE_UNBLOCK" || kind == "ZEN_YOUTUBE_BLOCK"
  }

  /** A message without a type, or of a type nobody handles, changes nothing and gets no reply. */
  lemma {:induction false} IgnoredSpec(s: Screen, m: Message)
    ensures m.kind.None? || !Handled(m.kind.value) ==> Handle(s, m) == Step(s, NoReply)
    ensures m.kind.Some? && Handled(m.kind.value) && Handle(s, m).outcome == NoReply ==>
      m.kind.value == "ZEN_YOUTUBE_UNBLOCK" || m.kind.value == "ZEN_YOUTUBE_BLOCK"
  {
  }

  /** `get-question` answers with the current question, or `undefined` once the index is past the quiz. */
  lemma {:induction false} GetQuestionSpec(s: Screen, answer: Option<string>)
    ensures var st := Handle(s, Message(Some("get-question"), answer));
      st.screen == s && st.outcome.Replied? && st.outcome.response.QuestionReply? &&
      (st.outcome.response.question.Some? <==> s.questionIndex < |Questions|) &&
      (s.questionIndex < |Questions| ==> st.outcome.response.question.value == Questions[s.questionIndex])
  {
  }

  /**
   * `question-button-1` records the answer first.  Within the quiz and with an
   * overlay it shows `answer.html` exactly when the answer equals the current
   * question's answer, and `incorrect.html` otherwise; past the quiz it throws.
   */
  lemma {:induction false} QuestionButtonSpec(s: Screen, answer: Option<string>)
    ensures var st := Handle(s, Message(Some("question-button-1"), answer));
      st.screen.lastAnswer == answer && st.screen.questionIndex == s.questionIndex &&
      st.screen.location == s.location &&
      (s.questionIndex >= |Questions| <==> st.outcome == Threw) &&
      (s.questionIndex >= |Questions| || s.overlay.None? ==> st.screen.overlay == s.overlay) &&
      (s.questionIndex < |Questions| && s.overlay.Some? ==>
        (st.screen.overlay == Some(AnswerPage) <==> answer == Some(Questions[s.questionIndex].answer)) &&
        (st.screen.overlay == Some(IncorrectPage) <==> answer != Some(Questions[s.questionIndex].answer)))
  {
  }

  /** `answer-button-1` moves to the next question, or to `complete.html` after the last one; the index keeps counting. */
  lemma {:induction false} AnswerButtonSpec(s: Screen, answer: Option<string>)
    ensures var st := Handle(s, Message(Some("answer-button-1"), answer));
      st.screen.questionIndex == s.questionIndex + 1 && st.screen.lastAnswer == s.lastAnswer &&
      st.outcome == Replied(EmptyReply) &&
      (s.overlay.Some? ==>
        st.screen.overlay == Some(if s.questionIndex + 1 < |Questions| then QuestionPage else CompletePage)) &&
      (s.overlay.None? ==> st.screen.overlay.None?)
  {
  }

  /** Every leave button sends the tab home and changes nothing else. */
  lemma {:induction false} LeaveButtonSpec(s: Screen, m: Message)
    requires m.kind.Some? && IsLeaveButton(m.kind.value)
    ensures Handle(s, m) == Step(s.(location := Some(HomeUrl)), Replied(EmptyReply))
  {
  }

  /**
   * `get-last-answer` replies with the recorded answer; `initial-button-1`
   * moves an open overlay to the question page; the block messages show or
   * remove the overlay and reply nothing.
   */
  lemma {:induction false} OtherMessagesSpec(s: Screen, answer: Option<string>)
    ensures Handle(s, Message(Some("get-last-answer"), answer)) == Step(s, Replied(AnswerReply(s.lastAnswer)))
    ensures var st := Handle(s, Message(Some("initial-button-1"), answer));
      st.outcome == Replied(EmptyReply) &&
      st.screen == (if s.overlay.Some? then s.(overlay := Some(QuestionPage)) else s)
    ensures var st := Handle(s, Message(Some("ZEN_YOUTUBE_UNBLOCK"), answer));
      st.outcome == NoReply && st.screen.overlay.None?
    ensures var st := Handle(s, Message(Some("ZEN_YOUTUBE_BLOCK"), answer));
      st.outcome == NoReply && st.screen.overlay.Some?
  {
  }

  /** The only way onto `answer.html` is a correct answer to the current question. */
  lemma {:induction false} AnswerPageNeedsCorrectAnswer(s: Screen, m: Message)
    requires s.overlay != Some(AnswerPage)
    requires Handle(s, m).screen.overlay == Some(AnswerPage)
    ensures m.kind == Some("question-button-1")
    ensures s.questionIndex < |Questions| && m.answer == Some(Questions[s.questionIndex].answer)
  {
  }

  /** The only way onto `complete.html` is the answer button after the last question. */
  lemma {:induction false} CompletePageNeedsLastQuestion(s: Screen, m: Message)
    requires s.overlay != Some(CompletePage)
    requires Handle(s, m).screen.overlay == Some(CompletePage)
    ensures m.kind == Some("answer-button-1")
    ensures Handle(s, m).screen.questionIndex >= |Questions|
  {
  }

  /** The messages in order. */
  function HandleAll(s: Screen, ms: seq<Message>): Screen
    decreases |ms|
  {
    if ms == [] then s else HandleAll(Handle(s, ms[0]).screen, ms[1..])
  }

  /** Answering question i correctly and moving on: the buttons the quiz pages send. */
  function AnswerRound(i: nat): seq<Message>
    requires i < |Questions|
  {
    [Message(Some("question-button-1"), Some(Questions[i].answer)), Message(Some("answer-button-1"), None)]
  }

  /** A correct round on an open overlay advances the quiz by one question. */
  lemma {:induction false} AnswerRoundSpec(s: Screen)
    requires s.overlay.Some? && s.questionIndex < |Questions|
    ensures var t := HandleAll(s, AnswerRound(s.questionIndex));
      t.questionIndex == s.questionIndex + 1 &&
      t.lastAnswer == Some(Questions[s.questionIndex].answer) && t.location == s.location &&
      t.overlay == Some(if s.questionIndex + 1 < |Questions| then QuestionPage else CompletePage)
  {
    var i := s.questionIndex;
    var ms := AnswerRound(i);
    var s1 := Handle(s, ms[0]).screen;
    QuestionButtonSpec(s, Some(Questions[i].answer));
    assert s1.overlay == Some(AnswerPage);
    var s2 := Handle(s1, ms[1]).screen;
    AnswerButtonSpec(s1, None);
    assert ms[1..][1..] == [];
    assert HandleAll(s, ms) == HandleAll(s1, ms[1..]) == HandleAll(s2, []);
  }

  /** The start button followed by both questions answered correctly ends on `complete.html`. */
  lemma {:induction false} CorrectRunCompletes(s: Screen)
    requires s.overlay.Some? && s.questionIndex == 0
    ensures var t := HandleAll(s, [Message(Some("initial-button-1"), None)] + AnswerRound(0) + AnswerRound(1));
      t.overlay == Some(CompletePage) && t.questionIndex == |Questions| && t.lastAnswer == Some("くさかんむり")
  {
    var start := [Message(Some("initial-button-1"), None)];
    var s0 := Handle(s, start[0]).screen;
    assert s0.overlay == Some(QuestionPage) && s0.questionIndex == 0;
    HandleAllAppend(s, start, AnswerRound(0) + AnswerRound(1));
    assert start + AnswerRound(0) + AnswerRound(1) == start + (AnswerRound(0) + AnswerRound(1));
    assert HandleAll(s, start) == HandleAll(s0, []);
    HandleAllAppend(s0, AnswerRound(0), AnswerRound(1));
    AnswerRoundSpec(s0);
    var s1 := HandleAll(s0, AnswerRound(0));
    AnswerRoundSpec(s1);
  }

  lemma {:induction false} HandleAllAppend(s: Screen, xs: seq<Message>, ys: seq<Message>)
    ensures HandleAll(s, xs + ys) == HandleAll(HandleAll(s, xs), ys)
    decreases |xs|
  {
    if xs == [] {
      assert xs + ys == ys;
    } else {
      assert (xs + ys)[0] == xs[0];
      assert (xs + ys)[1..] == xs[1..] + ys;
      HandleAllAppend(Handle(s, xs[0]).screen, xs[1..], ys);
    }
  }

  // ---------------------------------------------------------------------------
  // The content script's variables

  class BlockScreen {
    var overlay: Option<string>
    var questionIndex: nat
    var lastAnswer: Option<string>
    var location: Option<string>

    function Snapshot(): Screen
      reads this
    {
      Screen(overlay, questionIndex, lastAnswer, location)
    }

    /** The variables as the script declares them: no overlay, index 0, empty answer. */
    constructor()
      ensures Snapshot() == Fresh
    {
      overlay := None;
      questionIndex := 0;
      lastAnswer := Some("");
      location := None;
    }

    /** `setIframeSrc(page)`. */
    method SetIframeSrc(page: string)
      modifies this
      ensures Snapshot() == WithSrc(old(Snapshot()), page)
    {
      if overlay.None? {
        return;
      }
      overlay := Some(page);
    }

    /** `showBlockScreen()`. */
    method ShowBlockScreen()
      modifies this
      ensures Snapshot() == Shown(old(Snapshot()))
    {
      if overlay.Some? {
        return;
      }
      questionIndex := 0;
      lastAnswer := Some("");
      overlay := Some(InitialPage);
    }

    /** `removeBlockScreen()`. */
    method RemoveBlockScreen()
      modifies this
      ensures Snapshot() == Removed(old(Snapshot()))
    {
      if overlay.None? {
        return;
      }
      overlay := None;
    }

    /** `checkAndBlock()`, given whether the reply's `hasOverdue` is truthy. */
    method CheckAndBlock(hasOverdue: bool)
      modifies this
      ensures Snapshot() == Checked(old(Snapshot()), hasOverdue)
    {
      if hasOverdue {
        ShowBlockScreen();
      } else {
        RemoveBlockScreen();
      }
    }

    /** The `chrome.runtime.onMessage` listener. */
    method OnMessage(m: Message) returns (outcome: Outcome)
      modifies this
      ensures Step(Snapshot(), outcome) == Handle(old(Snapshot()), m)
    {
      if m.kind.None? || m.kind.value == "" {
        return NoReply;
      }
      var kind := m.kind.value;
      if kind == "get-question" {
        outcome := Replied(QuestionReply(QuestionAt(questionIndex)));
      } else if kind == "get-last-answer" {
        outcome := Replied(AnswerReply(lastAnswer));
      } else if kind == "initial-button-1" {
        SetIframeSrc(QuestionPage);
        outcome := Replied(EmptyReply);
      } else if IsLeaveButton(kind) {
        location := Some(HomeUrl);
        outcome := Replied(EmptyReply);
      } else if kind == "question-button-1" {
        lastAnswer := m.answer;
        var q := QuestionAt(questionIndex);
        if q.None? {
          return Threw;
        }
        if lastAnswer == Some(q.value.answer) {
          SetIframeSrc(AnswerPage);
        } else {
          SetIframeSrc(IncorrectPage);
        }
        outcome := Replied(EmptyReply);
      } else if kind == "answer-button-1" {
        questionIndex := questionIndex + 1;
        if questionIndex < |Questions| {
          SetIframeSrc(QuestionPage);
        } else {
          SetIframeSrc(CompletePage);
        }
        outcome := Replied(EmptyReply);
      } else if kind == "ZEN_YOUTUBE_UNBLOCK" {
        RemoveBlockScreen();
        outcome := NoReply;
      } else if kind == "ZEN_YOUTUBE_BLOCK" {
        ShowBlockScreen();
        outcome := NoReply;
      } else {
        outcome := NoReply;
      }
    }
  }

  /** Loading the script: fresh variables, then `checkAndBlock()`. */
  method Load(hasOverdue: bool) returns (b: BlockScreen)
    ensures fresh(b)
    ensures b.Snapshot() == Checked(Fresh, hasOverdue)
  {
    b := new BlockScreen();
    b.CheckAndBlock(hasOverdue);
  }
}
