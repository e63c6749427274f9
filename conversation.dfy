/**
 * The three submission conversations (white-list application, scam report,
 * appeal) as a step function: one inbound message moves a conversation from
 * one step to the next and fills one field of the user's session.
 */
module Conversation {
  import opened Options
  import opened Files
  import opened Store

  /** The steps of the three workflows, in the order they are asked. */
  datatype Step =
    | AppActivity | AppCity | AppLink | AppDesc | AppProofs | AppConfirm
    | ScamUsername | ScamDescription | ScamProofs | ScamConfirm
    | AppealUsername | AppealExplanation | AppealProofs | AppealConfirm

  /**
   * Where a user's conversation stands: ended, at a submission step, a
   * reviewer about to type an info request, or a user about to answer one.
   */
  datatype Conv = End | At(step: Step) | AskingInfo(kind: Kind) | AnsweringInfo(kind: Kind)

  function KindIndex(k: Kind): int {
    match k
    case White => 0
    case Scam => 1
    case Appeal => 2
  }

  /** The integer state constants; End is the framework's END, -1. */
  function Code(c: Conv): int {
    match c
    case End => -1
    case AskingInfo(k) => 14 + KindIndex(k)
    case AnsweringInfo(k) => 17 + KindIndex(k)
    case At(s) =>
      match s
      case AppActivity => 0
      case AppCity => 1
      case AppLink => 2
      case AppDesc => 3
      case AppProofs => 4
      case AppConfirm => 5
      case ScamUsername => 6
      case ScamDescription => 7
      case ScamProofs => 8
      case ScamConfirm => 9
      case AppealUsername => 10
      case AppealExplanation => 11
      case AppealProofs => 12
      case AppealConfirm => 13
  }

  /** The workflow a step belongs to. */
  function WorkflowOf(s: Step): Kind {
    if s.AppActivity? || s.AppCity? || s.AppLink? || s.AppDesc? || s.AppProofs? || s.AppConfirm? then White
    else if s.ScamUsername? || s.ScamDescription? || s.ScamProofs? || s.ScamConfirm? then Scam
    else Appeal
  }

  /** No two states share a code. */
  lemma CodesDistinct(a: Conv, b: Conv)
    requires Code(a) == Code(b)
    ensures a == b
  {
  }

  /** Each workflow owns its own range of codes: 0-5, 6-9, 10-13; the info states take 14-19. */
  lemma CodeRanges(s: Step)
    ensures WorkflowOf(s) == White <==> 0 <= Code(At(s)) < 6
    ensures WorkflowOf(s) == Scam <==> 6 <= Code(At(s)) < 10
    ensures WorkflowOf(s) == Appeal <==> 10 <= Code(At(s)) < 14
  {
  }

  predicate IsConfirmStep(s: Step) {
    s.AppConfirm? || s.ScamConfirm? || s.AppealConfirm?
  }

  predicate IsProofsStep(s: Step) {
    s.AppProofs? || s.ScamProofs? || s.AppealProofs?
  }

  predicate IsUsernameStep(s: Step) {
    s.ScamUsername? || s.AppealUsername?
  }

  /** The cancel keyword (the text of the cancel button). */
  const CancelText: string := "❌ Отменить"

  /** The confirmation keyword, compared after lower-casing. */
  const Keyword: string := "подтверждаю"

  /** What is stored as proofs when the proof message has no text. */
  const FilesOnlyProofs: string := "Пруфы в виде файлов"

  /**
   * Lower-casing of one character for ASCII and the basic Cyrillic block
   * (U+0400-U+042F); every other character is left as it is.
   */
  function Lower(c: char): char {
    if 'A' <= c <= 'Z' then (c as int + 32) as char
    else if '\U{0410}' <= c <= '\U{042F}' then (c as int + 0x20) as char
    else if '\U{0400}' <= c <= '\U{040F}' then (c as int + 0x50) as char
    else c
  }

  function LowerAll(s: string): (r: string)
    ensures |r| == |s|
    ensures forall i :: 0 <= i < |s| ==> r[i] == Lower(s[i])
  {
    if s == [] then [] else [Lower(s[0])] + LowerAll(s[1..])
  }

  /** The confirm step's test: the text, lower-cased, is the keyword. */
  predicate IsConfirmation(text: string) {
    text != "" && LowerAll(text) == Keyword
  }

  /**
   * The texts that pass the confirm step are exactly the keyword with any
   * of its letters written as a capital: the test is case-insensitive and
   * nothing else.
   */
  lemma ConfirmationTexts(text: string)
    ensures IsConfirmation(text) <==>
      |text| == |Keyword| &&
      forall i :: 0 <= i < |text| ==> text[i] == Keyword[i] || text[i] as int == Keyword[i] as int - 0x20
  {
    assert forall i :: 0 <= i < |Keyword| ==> 0x430 <= Keyword[i] as int < 0x450;
    if |text| == |Keyword| && forall i :: 0 <= i < |text| ==> text[i] == Keyword[i] || text[i] as int == Keyword[i] as int - 0x20 {
      assert LowerAll(text) == Keyword;
    }
  }

  /** The cancel keyword never counts as a confirmation. */
  lemma CancelIsNotConfirmation()
    ensures !IsConfirmation(CancelText)
  {
    assert LowerAll(CancelText)[0] == Lower(CancelText[0]) == CancelText[0];
  }

  /** `text.replace('@', '')`: every '@' removed. */
  function StripAt(s: string): (r: string)
    ensures '@' !in r
    ensures '@' !in s ==> r == s
    ensures |r| <= |s|
  {
    if s == [] then []
    else if s[0] == '@' then StripAt(s[1..])
    else [s[0]] + StripAt(s[1..])
  }

  /** The proofs field: the message text, or the files-only marker when there is none. */
  function ProofsText(text: string): string {
    if text != "" then text else FilesOnlyProofs
  }

  /** The file_ids field after a proof message: set only when the message carries a file. */
  function KeptFiles(before: Option<string>, m: Message): Option<string> {
    if HandleFiles(m) != "" then Some(HandleFiles(m)) else before
  }

  /** A reviewer's pending request for more information: which submission, and whose. */
  datatype RequestingInfo = RequestingInfo(kind: Kind, submissionId: int, userId: int)

  /**
   * A user's pending answer: which request, the request type as the button
   * named it, and the row as it was read when the answer began.
   */
  datatype ProvidingInfo = ProvidingInfo(requestId: int, requestType: string, request: InfoRow)

  /** The request_type strings: 'white', 'scam', 'appeal'. */
  function TypeName(k: Kind): string {
    match k
    case White => "white"
    case Scam => "scam"
    case Appeal => "appeal"
  }

  function KindOfType(name: string): (k: Option<Kind>)
    ensures k.None? ==> forall kind :: TypeName(kind) != name
    ensures k.Some? ==> TypeName(k.value) == name
  {
    if name == "white" then Some(White)
    else if name == "scam" then Some(Scam)
    else if name == "appeal" then Some(Appeal)
    else None
  }

  /** One user's session dictionary: an optional entry per key the bot uses. */
  datatype UserData = UserData(
    application: Option<ApplicationDraft>,
    report: Option<ReportDraft>,
    appeal: Option<AppealDraft>,
    requesting: Option<RequestingInfo>,
    providing: Option<ProvidingInfo>)

  const NoData: UserData := UserData(None, None, None, None, None)

  /** A confirmed form, handed to the store. */
  datatype Submission =
    | ApplicationForm(application: ApplicationDraft)
    | ReportForm(report: ReportDraft)
    | AppealForm(appeal: AppealDraft)

  function KindOfForm(f: Submission): Kind {
    match f
    case ApplicationForm(_) => White
    case ReportForm(_) => Scam
    case AppealForm(_) => Appeal
  }

  /** Every field the store reads with `d[key]` is present. */
  predicate Complete(f: Submission) {
    match f
    case ApplicationForm(d) => ApplicationOf(d).Some?
    case ReportForm(d) => ReportOf(d).Some?
    case AppealForm(d) => AppealOf(d).Some?
  }

  /** What the bot answers, one constructor per kind of reply text. */
  datatype Reply =
    | Silent
    | Asked(step: Step)
    | Cancelled
    | ConfirmReminder
    | NotInScamList(username: string)
    | Submitted(kind: Kind, id: int)
    | SubmitFailed(kind: Kind)
    | Denied
    | Decided(kind: Kind, id: int, status: Status)
    | RegistryWriteFailed
    | AskForQuestion(kind: Kind, submissionId: int)
    | SessionExpired
    | QuestionSent(userId: int, requestId: int)
    | QuestionUndelivered(requestId: int)
    | RequestNotFound
    | NotYourRequest
    | AnswerPrompt(requestText: string)
    | AnswerForwarded(reviewersAlerted: bool)
    | AnswerClosed(finished: bool)
    | MainMenu                                            // answered by a main-menu handler

  /** The result of one step handler. */
  datatype Outcome =
    | Raised                                              // a session key was missing: nothing changes
    | Moved(next: Conv, data: UserData, reply: Reply)
    | Finalize(data: UserData, form: Submission)         // confirmed: the conversation ends and the form is stored

  /**
   * The entry points: an application session starts with the user's id and
   * handle; a report or an appeal starts with no session entry.
   */
  function Begin(kind: Kind, userId: int, handle: string, ud: UserData): (r: (Conv, UserData))
    ensures r.0.At? && WorkflowOf(r.0.step) == kind
    ensures r.1.requesting == ud.requesting && r.1.providing == ud.providing
    ensures kind != White ==> r.1 == ud
    ensures kind == White ==>
      r.1.report == ud.report && r.1.appeal == ud.appeal && r.1.application.Some?
      && r.1.application.value.userId == userId && r.1.application.value.username == handle
      && ApplicationStage(r.1.application.value, 0)
  {
    match kind
    case White => (At(AppActivity), ud.(application := Some(ApplicationDraft(userId, handle, None, None, None, None, None, None))))
    case Scam => (At(ScamUsername), ud)
    case Appeal => (At(AppealUsername), ud)
  }

  /**
   * One message at a submission step. `userId` is the sender and `scam` the
   * scam list at that moment (the appeal's first step consults it).
   */
  function Advance(s: Step, ud: UserData, m: Message, userId: int, scam: seq<ScamRow>): (o: Outcome)
    ensures m.text == CancelText ==> o == Moved(End, NoData, Cancelled)
    ensures o.Finalize? ==> IsConfirmStep(s) && IsConfirmation(m.text) && KindOfForm(o.form) == WorkflowOf(s)
    ensures o.Moved? && o.next == At(s) ==> IsConfirmStep(s) && o.data == ud && o.reply == ConfirmReminder
    ensures o.Moved? && o.next.At? && o.next.step != s ==> Successor(s) == Some(o.next.step) && o.reply == Asked(o.next.step)
    ensures o.Moved? && o.next == End && m.text != CancelText ==>
      s.AppealUsername? && o.data == ud && o.reply == NotInScamList(StripAt(m.text))
    ensures !o.Raised? && m.text != CancelText ==> o.data.requesting == ud.requesting && o.data.providing == ud.providing
  {
    if m.text == CancelText then Moved(End, NoData, Cancelled)
    else
      match s
      case AppActivity =>
        if ud.application.None? then Raised
        else Moved(At(AppCity), ud.(application := Some(ud.application.value.(activity := Some(m.text)))), Asked(AppCity))
      case AppCity =>
        if ud.application.None? then Raised
        else Moved(At(AppLink), ud.(application := Some(ud.application.value.(city := Some(m.text)))), Asked(AppLink))
      case AppLink =>
        if ud.application.None? then Raised
        else Moved(At(AppDesc), ud.(application := Some(ud.application.value.(link := Some(m.text)))), Asked(AppDesc))
      case AppDesc =>
        if ud.application.None? then Raised
        else Moved(At(AppProofs), ud.(application := Some(ud.application.value.(description := Some(m.text)))), Asked(AppProofs))
      case AppProofs =>
        if ud.application.None? then Raised
        else
          var d := ud.application.value;
          Moved(At(AppConfirm),
                ud.(application := Some(d.(proofs := Some(ProofsText(m.text)), fileIds := KeptFiles(d.fileIds, m)))),
                Asked(AppConfirm))
      case AppConfirm =>
        if !IsConfirmation(m.text) then Moved(At(AppConfirm), ud, ConfirmReminder)
        else if ud.application.None? then Raised
        else Finalize(ud.(application := None), ApplicationForm(ud.application.value))
      case ScamUsername =>
        Moved(At(ScamDescription),
              ud.(report := Some(ReportDraft(userId, StripAt(m.text), None, None, None))),
              Asked(ScamDescription))
      case ScamDescription =>
        if ud.report.None? then Raised
        else Moved(At(ScamProofs), ud.(report := Some(ud.report.value.(description := Some(m.text)))), Asked(ScamProofs))
      case ScamProofs =>
        if ud.report.None? then Raised
        else
          var d := ud.report.value;
          Moved(At(ScamConfirm),
                ud.(report := Some(d.(proofs := Some(ProofsText(m.text)), fileIds := KeptFiles(d.fileIds, m)))),
                Asked(ScamConfirm))
      case ScamConfirm =>
        if !IsConfirmation(m.text) then Moved(At(ScamConfirm), ud, ConfirmReminder)
        else if ud.report.None? then Raised
        else Finalize(ud.(report := None), ReportForm(ud.report.value))
      case AppealUsername =>
        var name := StripAt(m.text);
        if !Listed(scam, name) then Moved(End, ud, NotInScamList(name))
        else Moved(At(AppealExplanation),
                   ud.(appeal := Some(AppealDraft(userId, name, None, None, None))),
                   Asked(AppealExplanation))
      case AppealExplanation =>
        if ud.appeal.None? then Raised
        else Moved(At(AppealProofs), ud.(appeal := Some(ud.appeal.value.(explanation := Some(m.text)))), Asked(AppealProofs))
      case AppealProofs =>
        if ud.appeal.None? then Raised
        else
          var d := ud.appeal.value;
          Moved(At(AppealConfirm),
                ud.(appeal := Some(d.(proofs := Some(ProofsText(m.text)), fileIds := KeptFiles(d.fileIds, m)))),
                Asked(AppealConfirm))
      case AppealConfirm =>
        if !IsConfirmation(m.text) then Moved(At(AppealConfirm), ud, ConfirmReminder)
        else if ud.appeal.None? then Raised
        else Finalize(ud.(appeal := None), AppealForm(ud.appeal.value))
  }

  // ---- dispatch --------------------------------------------------------

  /** A bot command: text that starts with '/' followed by a character of a command's name. */
  predicate IsCommand(text: string) {
    |text| >= 2 && text[0] == '/' && IsCommandChar(text[1])
  }

  /** A character that can continue a command's name. */
  predicate IsCommandChar(c: char) {
    'a' <= c <= 'z' || 'A' <= c <= 'Z' || '0' <= c <= '9' || c == '_'
  }

  /**
   * The command `/name` in any letter case: bare, followed by arguments, or
   * addressed to the bot by name. The name ends where the command characters end.
   */
  predicate IsCommandFor(text: string, name: string) {
    && |text| > |name|
    && LowerAll(text[..|name| + 1]) == "/" + name
    && (|text| == |name| + 1 || !IsCommandChar(text[|name| + 1]))
  }

  predicate IsCancelCommand(text: string) {
    IsCommandFor(text, "cancel")
  }

  /** Every such command is a command. */
  lemma CommandForIsCommand(text: string, name: string)
    requires name != [] && 'a' <= name[0] <= 'z'
    requires IsCommandFor(text, name)
    ensures IsCommand(text)
  {
    assert Lower(text[0]) == LowerAll(text[..|name| + 1])[0] == '/';
    assert Lower(text[1]) == LowerAll(text[..|name| + 1])[1] == name[0];
  }

  /** The texts of the ten main-menu buttons. */
  const MenuTexts: set<string> := {
    "🟩 Белый список",
    "🟥 Список скамеров",
    "📋 Управление заявками",
    "👥 Управление белым списком",
    "⚠️ Управление скамерами",
    "📊 Статистика",
    "⚙️ Настройки",
    "📜 Правила подачи заявок",
    "ℹ️ О проекте",
    "🔙 В главное меню"
  }

  /** `^text$` searched in a message: the button text itself, or followed by one line break. */
  predicate IsMenuText(text: string) {
    text in MenuTexts || (text != "" && text[|text| - 1] == '\n' && text[..|text| - 1] in MenuTexts)
  }

  /**
   * What the handlers registered ahead of every conversation take: `/start`,
   * `/admin` and the menu buttons. None of them touches the session.
   */
  predicate TakenByMainHandlers(text: string) {
    IsCommandFor(text, "start") || IsCommandFor(text, "admin") || IsMenuText(text)
  }

  /** No menu text is shorter than twelve characters. */
  lemma MenuTextsAreLong(text: string)
    requires IsMenuText(text)
    ensures |text| >= 12
  {
    assert forall t :: t in MenuTexts ==> |t| >= 12;
  }

  /** Every menu text starts with one of the buttons' symbols. */
  lemma MenuTextInitial(text: string)
    requires IsMenuText(text)
    ensures text[0] in {'🟩', '🟥', '📋', '👥', '⚠', '📊', '⚙', '📜', 'ℹ', '🔙'}
  {
    assert forall t :: t in MenuTexts ==> t[0] in {'🟩', '🟥', '📋', '👥', '⚠', '📊', '⚙', '📜', 'ℹ', '🔙'};
    if text !in MenuTexts {
      assert text[0] == text[..|text| - 1][0];
    }
  }

  /** The main handlers take only commands and menu texts. */
  lemma MainHandlersTakeCommandsAndMenus(text: string)
    ensures TakenByMainHandlers(text) ==> IsCommand(text) || IsMenuText(text)
  {
    if IsCommandFor(text, "start") {
      CommandForIsCommand(text, "start");
    } else if IsCommandFor(text, "admin") {
      CommandForIsCommand(text, "admin");
    }
  }

  /** The entry button of each submission conversation. */
  function EntryText(k: Kind): string {
    match k
    case White => "✉️ Подать заявку в белый список"
    case Scam => "❗️ Подать жалобу на скамера"
    case Appeal => "🔄 Обжаловать статус скамера"
  }

  /** `^button$` searched in a message: the button text itself, or followed by one line break. */
  predicate MatchesButton(text: string, button: string) {
    text == button || text == button + "\n"
  }

  /** The submission conversation whose entry point a text triggers, if any. */
  function EntryOf(text: string): Option<Kind> {
    if MatchesButton(text, EntryText(White)) then Some(White)
    else if MatchesButton(text, EntryText(Scam)) then Some(Scam)
    else if MatchesButton(text, EntryText(Appeal)) then Some(Appeal)
    else None
  }

  /** Each entry button triggers its own conversation and no other: the three buttons start differently. */
  lemma EntryOfButton(text: string, k: Kind)
    ensures MatchesButton(text, EntryText(k)) <==> EntryOf(text) == Some(k)
  {
    if MatchesButton(text, EntryText(k)) {
      assert text[0] == EntryText(k)[0];
      assert EntryText(White)[0] == '✉' && EntryText(Scam)[0] == '❗' && EntryText(Appeal)[0] == '🔄';
    }
  }

  /**
   * The white-list, report and appeal conversations are registered in that
   * order, all of them ahead of the info-request conversations. A user in
   * the `k` conversation who presses the entry button of one registered
   * before it starts that one, and the `k` conversation never sees the text.
   */
  predicate EntryRegisteredEarlier(k: Kind, text: string) {
    match k
    case White => false
    case Scam => EntryOf(text) == Some(White)
    case Appeal => EntryOf(text) == Some(White) || EntryOf(text) == Some(Scam)
  }

  /**
   * An entry button is an ordinary text answer, not taken by a main handler,
   * neither a confirmation nor `/cancel`: without the registration order the
   * step would store it.
   */
  lemma EntryTextsAreAnswers(text: string)
    ensures EntryOf(text).Some? ==>
      TextAnswer(text) && !TakenByMainHandlers(text) && !IsConfirmation(text) && !IsCancelCommand(text)
  {
    if EntryOf(text).Some? {
      var b := EntryText(EntryOf(text).value);
      assert |b| >= 20 && (b[0] == '✉' || b[0] == '❗' || b[0] == '🔄');
      assert text[0] == b[0] && |text| >= |b|;
      MainHandlersTakeCommandsAndMenus(text);
      if IsMenuText(text) {
        MenuTextInitial(text);
      }
      if IsCancelCommand(text) {
        CommandForIsCommand(text, "cancel");
      }
    }
  }

  /** The messages a step's own handler receives: text-only steps take non-command text, proof steps any text or file. */
  predicate Accepts(s: Step, m: Message) {
    if IsProofsStep(s) then m.text != "" || Attachments(m) != []
    else m.text != "" && !IsCommand(m.text)
  }

  /**
   * What a step's handler receives of the texts with a meaning of their own:
   * the cancel keyword and a confirmation at every step, `/cancel` and a bare
   * file only at the proof steps.
   */
  lemma AcceptedTexts(s: Step, m: Message)
    ensures m.text == CancelText ==> Accepts(s, m)
    ensures IsConfirmation(m.text) ==> Accepts(s, m)
    ensures IsCancelCommand(m.text) ==> (Accepts(s, m) <==> IsProofsStep(s))
    ensures m.text == "" && Attachments(m) != [] ==> (Accepts(s, m) <==> IsProofsStep(s))
  {
    if IsCancelCommand(m.text) {
      CommandForIsCommand(m.text, "cancel");
    }
    if IsConfirmation(m.text) {
      ConfirmationIsAnswer(m.text);
    }
  }

  /** Neither the cancel keyword nor `/cancel` is taken by a main handler; `/cancel` is a command. */
  lemma CancelNotTakenByMainHandlers(text: string)
    ensures text == CancelText ==> !TakenByMainHandlers(text)
    ensures IsCancelCommand(text) ==> !TakenByMainHandlers(text) && IsCommand(text)
  {
    MainHandlersTakeCommandsAndMenus(text);
    if IsCancelCommand(text) {
      CommandForIsCommand(text, "cancel");
      assert Lower(text[1]) == LowerAll(text[..7])[1] == 'c';
    }
  }

  /**
   * One message from the user `userId`, whose handle is `handle`, delivered
   * to a conversation at step `s`. The main handlers come first and leave
   * the conversation where it is; so does the entry button of a conversation
   * registered earlier, which starts that one; then the step's handler when
   * it accepts the message; then the `/cancel` fallback; otherwise nothing
   * happens.
   */
  function Handle(s: Step, ud: UserData, m: Message, userId: int, handle: string, scam: seq<ScamRow>): (o: Outcome)
    ensures TakenByMainHandlers(m.text) ==> o == Moved(At(s), ud, MainMenu)
    ensures EntryRegisteredEarlier(WorkflowOf(s), m.text) ==>
      o.Moved? && o.next == At(s) && o.data.report == ud.report && o.data.appeal == ud.appeal && o.reply.Asked?
    ensures m.text == CancelText || (IsCancelCommand(m.text) && !IsProofsStep(s)) ==> o == Moved(End, NoData, Cancelled)
    ensures o.Finalize? ==> IsConfirmStep(s) && IsConfirmation(m.text) && KindOfForm(o.form) == WorkflowOf(s)
    ensures o.Moved? && o.next == At(s) && !EntryRegisteredEarlier(WorkflowOf(s), m.text) ==> o.data == ud
    ensures o.Moved? && o.next.At? && o.next.step != s ==> Successor(s) == Some(o.next.step)
    ensures o.Moved? && o.next == End && o.data != NoData ==> s.AppealUsername? && o.reply.NotInScamList?
  {
    CancelNotTakenByMainHandlers(m.text);
    AcceptedTexts(s, m);
    EntryTextsAreAnswers(m.text);
    if TakenByMainHandlers(m.text) then Moved(At(s), ud, MainMenu)
    else if EntryRegisteredEarlier(WorkflowOf(s), m.text) then
      var started := Begin(EntryOf(m.text).value, userId, handle, ud);
      Moved(At(s), started.1, Asked(started.0.step))
    else if Accepts(s, m) then Advance(s, ud, m, userId, scam)
    else if IsCancelCommand(m.text) then Moved(End, NoData, Cancelled)
    else Moved(At(s), ud, Silent)
  }

  /**
   * Both cancel routes end the conversation with an empty session: the
   * cancel keyword wherever it is typed, the `/cancel` command at every
   * step except the proof steps, where it is taken as the proofs text.
   */
  lemma CancelAnywhere(s: Step, ud: UserData, m: Message, userId: int, handle: string, scam: seq<ScamRow>)
    ensures m.text == CancelText ==> Handle(s, ud, m, userId, handle, scam) == Moved(End, NoData, Cancelled)
    ensures IsCancelCommand(m.text) && !IsProofsStep(s) ==> Handle(s, ud, m, userId, handle, scam) == Moved(End, NoData, Cancelled)
    ensures IsCancelCommand(m.text) && IsProofsStep(s) && Consistent(s, ud) ==>
      Handle(s, ud, m, userId, handle, scam).Moved? && Field(s, Handle(s, ud, m, userId, handle, scam).data) == Some(m.text)
  {
    CancelNotTakenByMainHandlers(m.text);
    AcceptedTexts(s, m);
    EntryTextsAreAnswers(m.text);
    if IsCancelCommand(m.text) && IsProofsStep(s) && Consistent(s, ud) {
      assert Handle(s, ud, m, userId, handle, scam) == Advance(s, ud, m, userId, scam);
      ProofsStepStores(s, ud, m, userId, scam);
    }
  }

  // ---- what the session holds at each step --------------------------

  /** The first k answers of an application are filled in and no later one is. */
  predicate ApplicationStage(d: ApplicationDraft, k: nat) {
    && (d.activity.Some? <==> k >= 1) && (d.city.Some? <==> k >= 2) && (d.link.Some? <==> k >= 3)
    && (d.description.Some? <==> k >= 4) && (d.proofs.Some? <==> k >= 5) && (k < 5 ==> d.fileIds.None?)
  }

  predicate ReportStage(d: ReportDraft, k: nat) {
    (d.description.Some? <==> k >= 1) && (d.proofs.Some? <==> k >= 2) && (k < 2 ==> d.fileIds.None?)
  }

  predicate AppealStage(d: AppealDraft, k: nat) {
    (d.explanation.Some? <==> k >= 1) && (d.proofs.Some? <==> k >= 2) && (k < 2 ==> d.fileIds.None?)
  }

  /** At each step, the session holds exactly the answers to the steps before it. */
  predicate Consistent(s: Step, ud: UserData) {
    match s
    case AppActivity => ud.application.Some? && ApplicationStage(ud.application.value, 0)
    case AppCity => ud.application.Some? && ApplicationStage(ud.application.value, 1)
    case AppLink => ud.application.Some? && ApplicationStage(ud.application.value, 2)
    case AppDesc => ud.application.Some? && ApplicationStage(ud.application.value, 3)
    case AppProofs => ud.application.Some? && ApplicationStage(ud.application.value, 4)
    case AppConfirm => ud.application.Some? && ApplicationStage(ud.application.value, 5)
    case ScamUsername => true
    case ScamDescription => ud.report.Some? && ReportStage(ud.report.value, 0)
    case ScamProofs => ud.report.Some? && ReportStage(ud.report.value, 1)
    case ScamConfirm => ud.report.Some? && ReportStage(ud.report.value, 2)
    case AppealUsername => true
    case AppealExplanation => ud.appeal.Some? && AppealStage(ud.appeal.value, 0)
    case AppealProofs => ud.appeal.Some? && AppealStage(ud.appeal.value, 1)
    case AppealConfirm => ud.appeal.Some? && AppealStage(ud.appeal.value, 2)
  }

  /** Every entry point starts its workflow at its first step with a consistent session. */
  lemma BeginIsConsistent(kind: Kind, userId: int, handle: string, ud: UserData)
    ensures Begin(kind, userId, handle, ud).0.At?
    ensures Consistent(Begin(kind, userId, handle, ud).0.step, Begin(kind, userId, handle, ud).1)
    ensures WorkflowOf(Begin(kind, userId, handle, ud).0.step) == kind
  {
  }

  /**
   * From a consistent session a step never raises, lands on a step whose
   * session is again consistent, and hands over only complete forms.
   */
  lemma AdvanceKeepsConsistent(s: Step, ud: UserData, m: Message, userId: int, scam: seq<ScamRow>)
    requires Consistent(s, ud)
    ensures !Advance(s, ud, m, userId, scam).Raised?
    ensures Advance(s, ud, m, userId, scam).Moved? && Advance(s, ud, m, userId, scam).next.At? ==>
      Consistent(Advance(s, ud, m, userId, scam).next.step, Advance(s, ud, m, userId, scam).data)
    ensures Advance(s, ud, m, userId, scam).Finalize? ==>
      Complete(Advance(s, ud, m, userId, scam).form) && KindOfForm(Advance(s, ud, m, userId, scam).form) == WorkflowOf(s)
  {
  }

  // ---- order of the steps -------------------------------------------

  /** The step after `s` in its workflow's fixed order; a confirm step has none. */
  function Successor(s: Step): Option<Step> {
    match s
    case AppActivity => Some(AppCity)
    case AppCity => Some(AppLink)
    case AppLink => Some(AppDesc)
    case AppDesc => Some(AppProofs)
    case AppProofs => Some(AppConfirm)
    case AppConfirm => None
    case ScamUsername => Some(ScamDescription)
    case ScamDescription => Some(ScamProofs)
    case ScamProofs => Some(ScamConfirm)
    case ScamConfirm => None
    case AppealUsername => Some(AppealExplanation)
    case AppealExplanation => Some(AppealProofs)
    case AppealProofs => Some(AppealConfirm)
    case AppealConfirm => None
  }

  /** The order is the order of the state constants, within one workflow. */
  lemma SuccessorIsNextCode(s: Step)
    requires Successor(s).Some?
    ensures Code(At(Successor(s).value)) == Code(At(s)) + 1
    ensures WorkflowOf(Successor(s).value) == WorkflowOf(s)
  {
  }

  /**
   * Each step moves on to the next step of its workflow, except that the
   * cancel keyword ends the conversation from anywhere, a confirm step ends
   * it only on the keyword, and an appeal stops at its first step when the
   * handle is not on the scam list.
   */
  lemma StepOrder(s: Step, ud: UserData, m: Message, userId: int, scam: seq<ScamRow>)
    requires Consistent(s, ud)
    requires m.text != CancelText
    ensures Successor(s).Some? && !(s.AppealUsername? && !Listed(scam, StripAt(m.text))) ==>
      Advance(s, ud, m, userId, scam).Moved? && Advance(s, ud, m, userId, scam).next == At(Successor(s).value)
    ensures s.AppealUsername? && !Listed(scam, StripAt(m.text)) ==>
      Advance(s, ud, m, userId, scam) == Moved(End, ud, NotInScamList(StripAt(m.text)))
    ensures IsConfirmStep(s) && !IsConfirmation(m.text) ==>
      Advance(s, ud, m, userId, scam) == Moved(At(s), ud, ConfirmReminder)
    ensures IsConfirmStep(s) && IsConfirmation(m.text) ==> Advance(s, ud, m, userId, scam).Finalize?
  {
  }

  /**
   * Confirming hands over the session's form exactly as collected and pops
   * its key; every other key of the session is kept.
   */
  lemma ConfirmHandsOverForm(s: Step, ud: UserData, m: Message, userId: int, scam: seq<ScamRow>)
    requires IsConfirmStep(s) && Consistent(s, ud)
    requires m.text != CancelText && IsConfirmation(m.text)
    ensures s.AppConfirm? ==> Advance(s, ud, m, userId, scam) == Finalize(ud.(application := None), ApplicationForm(ud.application.value))
    ensures s.ScamConfirm? ==> Advance(s, ud, m, userId, scam) == Finalize(ud.(report := None), ReportForm(ud.report.value))
    ensures s.AppealConfirm? ==> Advance(s, ud, m, userId, scam) == Finalize(ud.(appeal := None), AppealForm(ud.appeal.value))
  {
  }

  // ---- each step stores its own field --------------------------------

  /** The answer a step stores, as the session holds it (confirm steps store none). */
  function Field(s: Step, ud: UserData): Option<string> {
    match s
    case AppActivity => if ud.application.Some? then ud.application.value.activity else None
    case AppCity => if ud.application.Some? then ud.application.value.city else None
    case AppLink => if ud.application.Some? then ud.application.value.link else None
    case AppDesc => if ud.application.Some? then ud.application.value.description else None
    case AppProofs => if ud.application.Some? then ud.application.value.proofs else None
    case ScamUsername => if ud.report.Some? then Some(ud.report.value.scammerUsername) else None
    case ScamDescription => if ud.report.Some? then ud.report.value.description else None
    case ScamProofs => if ud.report.Some? then ud.report.value.proofs else None
    case AppealUsername => if ud.appeal.Some? then Some(ud.appeal.value.username) else None
    case AppealExplanation => if ud.appeal.Some? then ud.appeal.value.explanation else None
    case AppealProofs => if ud.appeal.Some? then ud.appeal.value.proofs else None
    case AppConfirm => None
    case ScamConfirm => None
    case AppealConfirm => None
  }

  /** The file ids a workflow's session holds. */
  function FileField(k: Kind, ud: UserData): Option<string> {
    match k
    case White => if ud.application.Some? then ud.application.value.fileIds else None
    case Scam => if ud.report.Some? then ud.report.value.fileIds else None
    case Appeal => if ud.appeal.Some? then ud.appeal.value.fileIds else None
  }

  /**
   * A text step stores the message text in its own field and changes no
   * other answer, no file ids and no other session key.
   */
  lemma TextStepStoresOnlyItsField(s: Step, ud: UserData, m: Message, userId: int, scam: seq<ScamRow>)
    requires Consistent(s, ud)
    requires m.text != CancelText
    requires !IsConfirmStep(s) && !IsProofsStep(s) && !IsUsernameStep(s)
    ensures Advance(s, ud, m, userId, scam).Moved?
    ensures Field(s, Advance(s, ud, m, userId, scam).data) == Some(m.text)
    ensures forall t :: t != s ==> Field(t, Advance(s, ud, m, userId, scam).data) == Field(t, ud)
    ensures forall k :: FileField(k, Advance(s, ud, m, userId, scam).data) == FileField(k, ud)
    ensures Advance(s, ud, m, userId, scam).data.requesting == ud.requesting
    ensures Advance(s, ud, m, userId, scam).data.providing == ud.providing
  {
  }

  /**
   * A proofs step stores the text, or the files-only marker when there is
   * none; it sets file ids only when the message carries a file, and then to
   * that file's token; nothing else changes.
   */
  lemma ProofsStepStores(s: Step, ud: UserData, m: Message, userId: int, scam: seq<ScamRow>)
    requires Consistent(s, ud) && IsProofsStep(s)
    requires m.text != CancelText
    ensures Advance(s, ud, m, userId, scam).Moved?
    ensures Field(s, Advance(s, ud, m, userId, scam).data) == Some(if m.text != "" then m.text else FilesOnlyProofs)
    ensures FileField(WorkflowOf(s), Advance(s, ud, m, userId, scam).data)
            == if Attachments(m) == [] then None else Some(HandleFiles(m))
    ensures forall t :: t != s ==> Field(t, Advance(s, ud, m, userId, scam).data) == Field(t, ud)
    ensures forall k :: k != WorkflowOf(s) ==> FileField(k, Advance(s, ud, m, userId, scam).data) == FileField(k, ud)
  {
  }

  /** What `AdvanceKeepsConsistent` says of a step, said of a delivered message. */
  lemma HandleKeepsConsistent(s: Step, ud: UserData, m: Message, userId: int, handle: string, scam: seq<ScamRow>)
    requires Consistent(s, ud)
    ensures !Handle(s, ud, m, userId, handle, scam).Raised?
    ensures Handle(s, ud, m, userId, handle, scam).Moved? && Handle(s, ud, m, userId, handle, scam).next.At? ==>
      Consistent(Handle(s, ud, m, userId, handle, scam).next.step, Handle(s, ud, m, userId, handle, scam).data)
      && WorkflowOf(Handle(s, ud, m, userId, handle, scam).next.step) == WorkflowOf(s)
    ensures Handle(s, ud, m, userId, handle, scam).Finalize? ==>
      Complete(Handle(s, ud, m, userId, handle, scam).form) && KindOfForm(Handle(s, ud, m, userId, handle, scam).form) == WorkflowOf(s)
  {
    var o := Handle(s, ud, m, userId, handle, scam);
    if TakenByMainHandlers(m.text) {
      assert o == Moved(At(s), ud, MainMenu);
    } else if EntryRegisteredEarlier(WorkflowOf(s), m.text) {
      EarlierEntryStartsOther(s, ud, m, userId, handle, scam);
    } else if Accepts(s, m) {
      assert o == Advance(s, ud, m, userId, scam);
      AdvanceKeepsConsistent(s, ud, m, userId, scam);
      if o.Moved? && o.next.At? && o.next.step != s {
        SuccessorIsNextCode(s);
      }
    } else {
      assert o == Moved(End, NoData, Cancelled) || o == Moved(At(s), ud, Silent);
    }
  }

  /**
   * The entry button of a conversation registered earlier starts that one
   * at its first step with a consistent session, and leaves this one, never
   * the white-list one, at its step with its answers: both can go on.
   */
  lemma EarlierEntryStartsOther(s: Step, ud: UserData, m: Message, userId: int, handle: string, scam: seq<ScamRow>)
    requires Consistent(s, ud) && EntryRegisteredEarlier(WorkflowOf(s), m.text)
    ensures var o := Handle(s, ud, m, userId, handle, scam);
      var started := Begin(EntryOf(m.text).value, userId, handle, ud);
      && WorkflowOf(s) != White && o == Moved(At(s), started.1, Asked(started.0.step))
      && o.data.report == ud.report && o.data.appeal == ud.appeal && Consistent(s, o.data)
      && WorkflowOf(o.reply.step) == EntryOf(m.text).value && Consistent(o.reply.step, o.data)
  {
    BeginIsConsistent(EntryOf(m.text).value, userId, handle, ud);
  }

  /**
   * A submission step touches only the submission keys of the session: the
   * info-request keys are kept, unless a cancel clears the whole session.
   */
  lemma HandleKeepsInfoKeys(s: Step, ud: UserData, m: Message, userId: int, handle: string, scam: seq<ScamRow>)
    ensures var o := Handle(s, ud, m, userId, handle, scam);
      (o.Moved? && o.data != NoData ==> o.data.requesting == ud.requesting && o.data.providing == ud.providing)
      && (o.Finalize? ==> o.data.requesting == ud.requesting && o.data.providing == ud.providing)
  {
  }

  // ---- whole conversations ------------------------------------------

  /**
   * Feeds messages to a conversation until it ends: the final position, the
   * final session and the forms handed over on the way. A message on which
   * the handler raises leaves everything as it was.
   */
  function Run(c: Conv, ud: UserData, msgs: seq<Message>, userId: int, handle: string, scam: seq<ScamRow>): (Conv, UserData, seq<Submission>)
    decreases |msgs|
  {
    if msgs == [] || !c.At? then (c, ud, [])
    else
      match Handle(c.step, ud, msgs[0], userId, handle, scam)
      case Raised => Run(c, ud, msgs[1..], userId, handle, scam)
      case Moved(n, d, _) => Run(n, d, msgs[1..], userId, handle, scam)
      case Finalize(d, f) => (End, d, [f])
  }

  /**
   * Whatever the user sends, a conversation that starts consistent stays
   * consistent, hands over at most one form, and that form is complete and
   * of the conversation's own kind.
   */
  lemma {:induction false} RunSubmitsOnlyCompleteForms(s: Step, ud: UserData, msgs: seq<Message>, userId: int, handle: string, scam: seq<ScamRow>)
    requires Consistent(s, ud)
    ensures var r := Run(At(s), ud, msgs, userId, handle, scam);
      && (r.0.At? ==> Consistent(r.0.step, r.1) && WorkflowOf(r.0.step) == WorkflowOf(s))
      && |r.2| <= 1
      && (forall f :: f in r.2 ==> Complete(f) && KindOfForm(f) == WorkflowOf(s))
    decreases |msgs|
  {
    if msgs != [] {
      HandleKeepsConsistent(s, ud, msgs[0], userId, handle, scam);
      match Handle(s, ud, msgs[0], userId, handle, scam)
      case Moved(n, d, _) =>
        if n.At? {
          RunSubmitsOnlyCompleteForms(n.step, d, msgs[1..], userId, handle, scam);
        }
      case Finalize(d, f) =>
    }
  }

  /**
   * At a confirm step, any number of messages that neither cancel, nor
   * confirm, nor start a conversation registered earlier leave the step and
   * the session as they were, and store nothing.
   */
  lemma {:induction false} WrongConfirmationsKeepForm(s: Step, ud: UserData, msgs: seq<Message>, userId: int, handle: string, scam: seq<ScamRow>)
    requires IsConfirmStep(s)
    requires forall i :: 0 <= i < |msgs| ==>
      && msgs[i].text != CancelText && !IsCancelCommand(msgs[i].text) && !IsConfirmation(msgs[i].text)
      && !EntryRegisteredEarlier(WorkflowOf(s), msgs[i].text)
    ensures Run(At(s), ud, msgs, userId, handle, scam) == (At(s), ud, [])
    decreases |msgs|
  {
    if msgs != [] {
      WrongConfirmationStays(s, ud, msgs[0], userId, handle, scam);
      WrongConfirmationsKeepForm(s, ud, msgs[1..], userId, handle, scam);
    }
  }

  /** One such message at a confirm step: the step and the session stay as they were. */
  lemma WrongConfirmationStays(s: Step, ud: UserData, m: Message, userId: int, handle: string, scam: seq<ScamRow>)
    requires IsConfirmStep(s)
    requires m.text != CancelText && !IsCancelCommand(m.text) && !IsConfirmation(m.text)
    requires !EntryRegisteredEarlier(WorkflowOf(s), m.text)
    ensures Handle(s, ud, m, userId, handle, scam) == Moved(At(s), ud, Handle(s, ud, m, userId, handle, scam).reply)
  {
  }

  /** Running from a step whose handler moves on is running the rest from where it moved. */
  lemma RunMoves(s: Step, ud: UserData, msgs: seq<Message>, userId: int, handle: string, scam: seq<ScamRow>)
    requires msgs != []
    requires Handle(s, ud, msgs[0], userId, handle, scam).Moved?
    ensures Run(At(s), ud, msgs, userId, handle, scam)
         == Run(Handle(s, ud, msgs[0], userId, handle, scam).next, Handle(s, ud, msgs[0], userId, handle, scam).data, msgs[1..], userId, handle, scam)
  {
  }

  /** A confirmation at a confirm step with its form in the session hands it over. */
  lemma ConfirmAccepted(s: Step, ud: UserData, confirm: string, userId: int, handle: string, scam: seq<ScamRow>)
    requires IsConfirmStep(s) && IsConfirmation(confirm)
    requires s.AppConfirm? ==> ud.application.Some?
    requires s.ScamConfirm? ==> ud.report.Some?
    requires s.AppealConfirm? ==> ud.appeal.Some?
    ensures Handle(s, ud, TextMessage(confirm), userId, handle, scam).Finalize?
    ensures Run(At(s), ud, [TextMessage(confirm)], userId, handle, scam)
         == (End, Handle(s, ud, TextMessage(confirm), userId, handle, scam).data, [Handle(s, ud, TextMessage(confirm), userId, handle, scam).form])
    ensures s.AppConfirm? ==> Handle(s, ud, TextMessage(confirm), userId, handle, scam) == Finalize(ud.(application := None), ApplicationForm(ud.application.value))
    ensures s.ScamConfirm? ==> Handle(s, ud, TextMessage(confirm), userId, handle, scam) == Finalize(ud.(report := None), ReportForm(ud.report.value))
    ensures s.AppealConfirm? ==> Handle(s, ud, TextMessage(confirm), userId, handle, scam) == Finalize(ud.(appeal := None), AppealForm(ud.appeal.value))
  {
    ConfirmationIsAnswer(confirm);
    EntryTextsAreAnswers(confirm);
    MainHandlersTakeCommandsAndMenus(confirm);
  }

  /** A confirmation is an ordinary text answer: not empty, not a command, not the cancel keyword. */
  lemma ConfirmationIsAnswer(confirm: string)
    requires IsConfirmation(confirm)
    ensures TextAnswer(confirm)
  {
    CancelIsNotConfirmation();
    assert Lower(confirm[0]) == LowerAll(confirm)[0] == Keyword[0];
    if IsMenuText(confirm) {
      MenuTextsAreLong(confirm);
    }
  }

  /** A text answer: what a text step accepts and does not take for a cancel or a menu button. */
  predicate TextAnswer(t: string) {
    t != "" && !IsCommand(t) && t != CancelText && !IsMenuText(t)
  }

  /**
   * A text answer that is not the entry button of a conversation registered
   * earlier reaches the step's own handler.
   */
  lemma AnswerReachesStep(s: Step, ud: UserData, t: string, userId: int, handle: string, scam: seq<ScamRow>)
    requires TextAnswer(t) && !EntryRegisteredEarlier(WorkflowOf(s), t)
    ensures Handle(s, ud, TextMessage(t), userId, handle, scam) == Advance(s, ud, TextMessage(t), userId, scam)
  {
    MainHandlersTakeCommandsAndMenus(t);
  }

  /** The last three messages of an application: description, proof, confirmation. */
  lemma ApplicationTail(ud: UserData, d3: ApplicationDraft, scam: seq<ScamRow>, userId: int, handle: string,
                        description: string, proof: Message, confirm: string)
    requires TextAnswer(description)
    requires Accepts(AppProofs, proof) && proof.text != CancelText && !TakenByMainHandlers(proof.text)
    requires IsConfirmation(confirm)
    ensures var d5 := d3.(description := Some(description), proofs := Some(ProofsText(proof.text)),
                          fileIds := KeptFiles(d3.fileIds, proof));
            Run(At(AppDesc), ud.(application := Some(d3)), [TextMessage(description), proof, TextMessage(confirm)], userId, handle, scam)
            == (End, ud.(application := None), [ApplicationForm(d5)])
  {
    var msgs := [TextMessage(description), proof, TextMessage(confirm)];
    var d4 := d3.(description := Some(description));
    var d5 := d4.(proofs := Some(ProofsText(proof.text)), fileIds := KeptFiles(d3.fileIds, proof));
    assert Handle(AppDesc, ud.(application := Some(d3)), msgs[0], userId, handle, scam)
        == Moved(At(AppProofs), ud.(application := Some(d4)), Asked(AppProofs)) by {
      AnswerReachesStep(AppDesc, ud.(application := Some(d3)), description, userId, handle, scam);
    }
    assert Handle(AppProofs, ud.(application := Some(d4)), msgs[1], userId, handle, scam)
        == Moved(At(AppConfirm), ud.(application := Some(d5)), Asked(AppConfirm));
    RunMoves(AppDesc, ud.(application := Some(d3)), msgs, userId, handle, scam);
    RunMoves(AppProofs, ud.(application := Some(d4)), msgs[1..], userId, handle, scam);
    assert msgs[1..][1..] == [TextMessage(confirm)];
    ConfirmAccepted(AppConfirm, ud.(application := Some(d5)), confirm, userId, handle, scam);
  }

  /** The last four messages of an application: link, description, proof, confirmation. */
  lemma ApplicationFromLink(ud: UserData, d2: ApplicationDraft, scam: seq<ScamRow>, userId: int, handle: string,
                            link: string, description: string, proof: Message, confirm: string)
    requires TextAnswer(link) && TextAnswer(description)
    requires Accepts(AppProofs, proof) && proof.text != CancelText && !TakenByMainHandlers(proof.text)
    requires IsConfirmation(confirm)
    ensures var d5 := d2.(link := Some(link), description := Some(description), proofs := Some(ProofsText(proof.text)),
                          fileIds := KeptFiles(d2.fileIds, proof));
            Run(At(AppLink), ud.(application := Some(d2)),
                [TextMessage(link), TextMessage(description), proof, TextMessage(confirm)], userId, handle, scam)
            == (End, ud.(application := None), [ApplicationForm(d5)])
  {
    var msgs := [TextMessage(link), TextMessage(description), proof, TextMessage(confirm)];
    var d3 := d2.(link := Some(link));
    assert Handle(AppLink, ud.(application := Some(d2)), msgs[0], userId, handle, scam)
        == Moved(At(AppDesc), ud.(application := Some(d3)), Asked(AppDesc)) by {
      AnswerReachesStep(AppLink, ud.(application := Some(d2)), link, userId, handle, scam);
    }
    RunMoves(AppLink, ud.(application := Some(d2)), msgs, userId, handle, scam);
    assert msgs[1..] == [TextMessage(description), proof, TextMessage(confirm)];
    ApplicationTail(ud, d3, scam, userId, handle, description, proof, confirm);
  }

  /** The last five messages of an application: city, link, description, proof, confirmation. */
  lemma ApplicationFromCity(ud: UserData, d1: ApplicationDraft, scam: seq<ScamRow>, userId: int, handle: string,
                            city: string, link: string, description: string, proof: Message, confirm: string)
    requires TextAnswer(city) && TextAnswer(link) && TextAnswer(description)
    requires Accepts(AppProofs, proof) && proof.text != CancelText && !TakenByMainHandlers(proof.text)
    requires IsConfirmation(confirm)
    ensures var d5 := d1.(city := Some(city), link := Some(link), description := Some(description),
                          proofs := Some(ProofsText(proof.text)), fileIds := KeptFiles(d1.fileIds, proof));
            Run(At(AppCity), ud.(application := Some(d1)),
                [TextMessage(city), TextMessage(link), TextMessage(description), proof, TextMessage(confirm)],
                userId, handle, scam)
            == (End, ud.(application := None), [ApplicationForm(d5)])
  {
    var msgs := [TextMessage(city), TextMessage(link), TextMessage(description), proof, TextMessage(confirm)];
    var d2 := d1.(city := Some(city));
    assert Handle(AppCity, ud.(application := Some(d1)), msgs[0], userId, handle, scam)
        == Moved(At(AppLink), ud.(application := Some(d2)), Asked(AppLink)) by {
      AnswerReachesStep(AppCity, ud.(application := Some(d1)), city, userId, handle, scam);
    }
    RunMoves(AppCity, ud.(application := Some(d1)), msgs, userId, handle, scam);
    assert msgs[1..] == [TextMessage(link), TextMessage(description), proof, TextMessage(confirm)];
    ApplicationFromLink(ud, d2, scam, userId, handle, link, description, proof, confirm);
  }

  /**
   * An application answered in full and confirmed hands over exactly one
   * form carrying the user's answers, and leaves no application in the session.
   */
  lemma ApplicationRoundTrip(userId: int, handle: string, ud: UserData, scam: seq<ScamRow>,
                             activity: string, city: string, link: string, description: string,
                             proof: Message, confirm: string)
    requires TextAnswer(activity) && TextAnswer(city) && TextAnswer(link) && TextAnswer(description)
    requires Accepts(AppProofs, proof) && proof.text != CancelText && !TakenByMainHandlers(proof.text)
    requires IsConfirmation(confirm)
    ensures var start := Begin(White, userId, handle, ud);
            var msgs := [TextMessage(activity), TextMessage(city), TextMessage(link), TextMessage(description),
                         proof, TextMessage(confirm)];
            var r := Run(start.0, start.1, msgs, userId, handle, scam);
            && r.0 == End && r.1.application.None?
            && r.2 == [ApplicationForm(ApplicationDraft(userId, handle, Some(activity), Some(city), Some(link),
                         Some(description), Some(ProofsText(proof.text)), KeptFiles(None, proof)))]
  {
    var msgs := [TextMessage(activity), TextMessage(city), TextMessage(link), TextMessage(description),
                 proof, TextMessage(confirm)];
    var d0 := ApplicationDraft(userId, handle, None, None, None, None, None, None);
    var d1 := d0.(activity := Some(activity));
    assert Handle(AppActivity, ud.(application := Some(d0)), msgs[0], userId, handle, scam)
        == Moved(At(AppCity), ud.(application := Some(d1)), Asked(AppCity)) by {
      AnswerReachesStep(AppActivity, ud.(application := Some(d0)), activity, userId, handle, scam);
    }
    RunMoves(AppActivity, ud.(application := Some(d0)), msgs, userId, handle, scam);
    assert msgs[1..] == [TextMessage(city), TextMessage(link), TextMessage(description), proof, TextMessage(confirm)];
    ApplicationFromCity(ud, d1, scam, userId, handle, city, link, description, proof, confirm);
  }
}