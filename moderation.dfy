/**
 * What the reviewer-side handlers do to the store and to a session: the
 * approve / reject / request-info branches of handle_callback, the
 * handle_request_info_* handlers, the provide_ branch and
 * handle_provide_info, each as a function from the state before to the
 * state after.
 */
module Moderation {
  import opened Options
  import opened Tables
  import opened Files
  import opened Store
  import opened Conversation

  /** ADMIN_IDS: the reviewers. */
  const AdminIds: set<int> := {6240653984, 5828927567}

  /** A decision's result: the store afterwards and the text the reviewer's message is edited to. */
  datatype Decision = Decision(db: Snapshot, reply: Reply)

  /**
   * An info-protocol handler's result: the store and the caller's session
   * afterwards, the state it returns (None when it returns nothing, so the
   * framework keeps the current state or starts no conversation) and the reply.
   */
  datatype Effect = Effect(db: Snapshot, data: UserData, next: Option<Conv>, reply: Reply)

  // ---- submissions --------------------------------------------------

  /** The row a confirmed form becomes, when every field the store reads is present. */
  function SubmittedRow(s: Snapshot, f: Submission): Snapshot {
    match f
    case ApplicationForm(d) =>
      if ApplicationOf(d).Some? then s.(applications := Insert(s.applications, ApplicationOf(d).value, Pending)) else s
    case ReportForm(d) =>
      if ReportOf(d).Some? then s.(reports := Insert(s.reports, ReportOf(d).value, Pending)) else s
    case AppealForm(d) =>
      if AppealOf(d).Some? then s.(appeals := Insert(s.appeals, AppealOf(d).value, Pending)) else s
  }

  /** add_white_list_application / add_scam_report / add_appeal on a confirmed form; a failed insert changes nothing. */
  function Submit(s: Snapshot, f: Submission, storeOk: bool): (t: Snapshot)
    ensures t.whiteList == s.whiteList && t.scamList == s.scamList && t.infoRequests == s.infoRequests
    ensures !(storeOk && Complete(f)) ==> t == s
    ensures storeOk && Complete(f) ==> Statuses(t, KindOfForm(f)) == Statuses(s, KindOfForm(f)) + [Pending]
    ensures forall k :: k != KindOfForm(f) ==> Statuses(t, k) == Statuses(s, k)
  {
    if storeOk then SubmittedRow(s, f) else s
  }

  /** The ids of the pending submissions of a kind, as get_pending_* lists them. */
  function PendingIds(s: Snapshot, kind: Kind): seq<int> {
    match kind
    case White => Ids(Select(s.applications, Pending))
    case Scam => Ids(Select(s.reports, Pending))
    case Appeal => Ids(Select(s.appeals, Pending))
  }

  /**
   * A stored form becomes the last pending submission of its kind, under
   * the next id, and nothing else changes; an incomplete form or a failed
   * insert stores nothing.
   */
  lemma SubmitAddsPending(s: Snapshot, f: Submission, storeOk: bool)
    ensures var t := Submit(s, f, storeOk);
      if storeOk && Complete(f) then
        && PendingIds(t, KindOfForm(f)) == PendingIds(s, KindOfForm(f)) + [NextIdOf(s, KindOfForm(f))]
        && (forall k :: k != KindOfForm(f) ==> PendingIds(t, k) == PendingIds(s, k))
        && t.whiteList == s.whiteList && t.scamList == s.scamList && t.infoRequests == s.infoRequests
      else t == s
  {
    if storeOk && Complete(f) {
      var t := Submit(s, f, storeOk);
      match f
      case ApplicationForm(d) =>
        assert t == s.(applications := Insert(s.applications, ApplicationOf(d).value, Pending));
        InsertSelected(s.applications, ApplicationOf(d).value, Pending);
      case ReportForm(d) =>
        assert t == s.(reports := Insert(s.reports, ReportOf(d).value, Pending));
        InsertSelected(s.reports, ReportOf(d).value, Pending);
      case AppealForm(d) =>
        assert t == s.(appeals := Insert(s.appeals, AppealOf(d).value, Pending));
        InsertSelected(s.appeals, AppealOf(d).value, Pending);
    }
  }

  /** The id the next submission of a kind receives. */
  function NextIdOf(s: Snapshot, kind: Kind): int {
    match kind
    case White => NextId(s.applications)
    case Scam => NextId(s.reports)
    case Appeal => NextId(s.appeals)
  }

  // ---- decisions ----------------------------------------------------

  /**
   * approve_white_: a reviewer approves an application by copying it into
   * the white list; only when that insert succeeds is the application
   * marked approved. The current status is not consulted.
   */
  function ApproveApplication(s: Snapshot, caller: int, id: int, storeOk: bool): (d: Decision)
    ensures d.reply == Denied <==> caller !in AdminIds
    ensures d.reply.Decided? <==> caller in AdminIds && storeOk && Find(s.applications, id).Some?
    ensures d.reply.Decided? ==> d.reply == Decided(White, id, Approved)
    ensures !d.reply.Decided? ==> d.db == s
    ensures |d.db.whiteList| == |s.whiteList| + (if d.reply.Decided? then 1 else 0)
    ensures d.db.reports == s.reports && d.db.appeals == s.appeals
    ensures d.db.scamList == s.scamList && d.db.infoRequests == s.infoRequests
  {
    if caller !in AdminIds then Decision(s, Denied)
    else match Find(s.applications, id)
      case None => Decision(s, Silent)
      case Some(row) =>
        if !storeOk then Decision(s, RegistryWriteFailed)
        else Decision(s.(whiteList := Insert(s.whiteList, row.data, Approved),
                         applications := SetStatus(s.applications, id, Approved, None)),
                      Decided(White, id, Approved))
  }

  /** The scam-list row a report becomes: no user id, the reported handle, the description as reason. */
  function ScamEntry(r: ReportData): ScamData {
    ScamData(None, r.scammerUsername, r.description, r.proofs, r.fileIds)
  }

  /** approve_scam_: the reported handle goes on the scam list as active, then the report is approved. */
  function ApproveReport(s: Snapshot, caller: int, id: int, storeOk: bool): (d: Decision)
    ensures d.reply == Denied <==> caller !in AdminIds
    ensures d.reply.Decided? <==> caller in AdminIds && storeOk && Find(s.reports, id).Some?
    ensures d.reply.Decided? ==> d.reply == Decided(Scam, id, Approved)
    ensures !d.reply.Decided? ==> d.db == s
    ensures |d.db.scamList| == |s.scamList| + (if d.reply.Decided? then 1 else 0)
    ensures d.db.applications == s.applications && d.db.appeals == s.appeals
    ensures d.db.whiteList == s.whiteList && d.db.infoRequests == s.infoRequests
  {
    if caller !in AdminIds then Decision(s, Denied)
    else match Find(s.reports, id)
      case None => Decision(s, Silent)
      case Some(row) =>
        if !storeOk then Decision(s, RegistryWriteFailed)
        else Decision(s.(scamList := Insert(s.scamList, ScamEntry(row.data), Active),
                         reports := SetStatus(s.reports, id, Approved, None)),
                      Decided(Scam, id, Approved))
  }

  /**
   * approve_appeal_: the appeal is approved, then every scam-list row of its
   * handle is marked removed; the result of the removal is not looked at.
   */
  function ApproveAppeal(s: Snapshot, caller: int, id: int, storeOk: bool): (d: Decision)
    ensures d.reply == Denied <==> caller !in AdminIds
    ensures d.reply.Decided? <==> caller in AdminIds && Find(s.appeals, id).Some?
    ensures d.reply.Decided? ==> d.reply == Decided(Appeal, id, Approved)
    ensures !d.reply.Decided? ==> d.db == s
    ensures |d.db.scamList| == |s.scamList| && (!storeOk ==> d.db.scamList == s.scamList)
    ensures d.db.applications == s.applications && d.db.reports == s.reports
    ensures d.db.whiteList == s.whiteList && d.db.infoRequests == s.infoRequests
  {
    if caller !in AdminIds then Decision(s, Denied)
    else match Find(s.appeals, id)
      case None => Decision(s, Silent)
      case Some(row) =>
        var approved := s.(appeals := SetStatus(s.appeals, id, Approved, None));
        Decision(if storeOk then approved.(scamList := SoftRemove(s.scamList, row.data.username)) else approved,
                 Decided(Appeal, id, Approved))
  }

  /** reject_white_ / reject_scam_ / reject_appeal_: the status becomes rejected; nothing checks that the id exists. */
  function Reject(s: Snapshot, caller: int, kind: Kind, id: int): (d: Decision)
    ensures caller !in AdminIds ==> d == Decision(s, Denied)
    ensures caller in AdminIds ==> d.reply == Decided(kind, id, Rejected)
    ensures d.db.whiteList == s.whiteList && d.db.scamList == s.scamList && d.db.infoRequests == s.infoRequests
    ensures forall k :: k != kind ==> Statuses(d.db, k) == Statuses(s, k)
  {
    if caller !in AdminIds then Decision(s, Denied)
    else
      var t := match kind
        case White => s.(applications := SetStatus(s.applications, id, Rejected, None))
        case Scam => s.(reports := SetStatus(s.reports, id, Rejected, None))
        case Appeal => s.(appeals := SetStatus(s.appeals, id, Rejected, None));
      Decision(t, Decided(kind, id, Rejected))
  }

  /** A caller outside ADMIN_IDS is told so and changes nothing, whatever the button. */
  lemma NonAdminChangesNothing(s: Snapshot, caller: int, kind: Kind, id: int, storeOk: bool)
    requires caller !in AdminIds
    ensures ApproveApplication(s, caller, id, storeOk) == Decision(s, Denied)
    ensures ApproveReport(s, caller, id, storeOk) == Decision(s, Denied)
    ensures ApproveAppeal(s, caller, id, storeOk) == Decision(s, Denied)
    ensures Reject(s, caller, kind, id) == Decision(s, Denied)
  {
  }

  /**
   * Approving an application puts a row with the application's own fields
   * on the white list and marks the application approved, and touches no
   * other table; when the insert fails, nothing changes. An unknown id
   * changes nothing either.
   */
  lemma ApprovalCopiesApplication(s: Snapshot, caller: int, id: int, storeOk: bool)
    requires caller in AdminIds && Positional(s.applications)
    ensures var d := ApproveApplication(s, caller, id, storeOk);
      if !(1 <= id <= |s.applications|) || !storeOk then d.db == s
      else
        && |d.db.whiteList| == |s.whiteList| + 1
        && d.db.whiteList[|s.whiteList|].data == s.applications[id - 1].data
        && d.db.whiteList[|s.whiteList|].status == Approved
        && Find(d.db.applications, id).Some? && Find(d.db.applications, id).value.status == Approved
        && Find(d.db.applications, id).value.data == s.applications[id - 1].data
        && d.db.reports == s.reports && d.db.appeals == s.appeals
        && d.db.scamList == s.scamList && d.db.infoRequests == s.infoRequests
  {
    FindPositional(s.applications, id);
    if 1 <= id <= |s.applications| && storeOk {
      var d := ApproveApplication(s, caller, id, storeOk);
      SetStatusKeepsPositional(s.applications, id, Approved, None);
      FindPositional(d.db.applications, id);
    }
  }

  /**
   * Approval does not check the status, so approving the same application
   * twice puts two white-list rows with the same fields on the list.
   */
  lemma ReapprovalDuplicates(s: Snapshot, caller: int, id: int)
    requires caller in AdminIds && Positional(s.applications)
    requires 1 <= id <= |s.applications|
    ensures var twice := ApproveApplication(ApproveApplication(s, caller, id, true).db, caller, id, true).db;
      && |twice.whiteList| == |s.whiteList| + 2
      && twice.whiteList[|s.whiteList|].data == twice.whiteList[|s.whiteList| + 1].data == s.applications[id - 1].data
      && twice.whiteList[|s.whiteList|].id != twice.whiteList[|s.whiteList| + 1].id
  {
    ApprovalCopiesApplication(s, caller, id, true);
    var once := ApproveApplication(s, caller, id, true).db;
    SetStatusKeepsPositional(s.applications, id, Approved, None);
    ApprovalCopiesApplication(once, caller, id, true);
  }

  /**
   * Approving a report puts the reported handle on the scam list as an
   * active entry, so that it is listed, and marks the report approved;
   * a failed insert changes nothing.
   */
  lemma ApprovalListsScammer(s: Snapshot, caller: int, id: int, storeOk: bool)
    requires caller in AdminIds && Positional(s.reports)
    ensures var d := ApproveReport(s, caller, id, storeOk);
      if !(1 <= id <= |s.reports|) || !storeOk then d.db == s
      else
        && d.db.scamList == s.scamList + [Row(|s.scamList| + 1, ScamEntry(s.reports[id - 1].data), Active, None)]
        && Listed(d.db.scamList, s.reports[id - 1].data.scammerUsername)
        && Find(d.db.reports, id).Some? && Find(d.db.reports, id).value.status == Approved
        && d.db.applications == s.applications && d.db.appeals == s.appeals
        && d.db.whiteList == s.whiteList && d.db.infoRequests == s.infoRequests
  {
    FindPositional(s.reports, id);
    if 1 <= id <= |s.reports| && storeOk {
      var d := ApproveReport(s, caller, id, storeOk);
      assert d.db.scamList[|s.scamList|].data.username == s.reports[id - 1].data.scammerUsername;
      SetStatusKeepsPositional(s.reports, id, Approved, None);
      FindPositional(d.db.reports, id);
    }
  }

  /**
   * Approving an appeal marks it approved and, when the store is
   * reachable, takes the handle off the scam list: its rows stay, marked
   * removed, and the handle is no longer listed; other handles keep their
   * listing.
   */
  lemma AppealApprovalDelists(s: Snapshot, caller: int, id: int, other: string)
    requires caller in AdminIds && Positional(s.appeals)
    requires 1 <= id <= |s.appeals|
    ensures var d := ApproveAppeal(s, caller, id, true);
      var name := s.appeals[id - 1].data.username;
      && !Listed(d.db.scamList, name)
      && |d.db.scamList| == |s.scamList|
      && (forall i :: 0 <= i < |s.scamList| ==> d.db.scamList[i].data == s.scamList[i].data)
      && (other != name ==> Listed(d.db.scamList, other) == Listed(s.scamList, other))
      && Find(d.db.appeals, id).Some? && Find(d.db.appeals, id).value.status == Approved
  {
    FindPositional(s.appeals, id);
    var name := s.appeals[id - 1].data.username;
    SoftRemoveDelists(s.scamList, name);
    if other != name {
      SoftRemoveKeepsOthers(s.scamList, name, other);
    }
    SetStatusKeepsPositional(s.appeals, id, Approved, None);
    FindPositional(ApproveAppeal(s, caller, id, true).db.appeals, id);
  }

  /** The submission table of a kind. */
  function Statuses(s: Snapshot, kind: Kind): seq<Status> {
    match kind
    case White => seq(|s.applications|, i requires 0 <= i < |s.applications| => s.applications[i].status)
    case Scam => seq(|s.reports|, i requires 0 <= i < |s.reports| => s.reports[i].status)
    case Appeal => seq(|s.appeals|, i requires 0 <= i < |s.appeals| => s.appeals[i].status)
  }

  /**
   * Rejecting sets the status of that one submission to rejected and
   * changes nothing else: not the registries, not the other kinds, not
   * another submission's status.
   */
  lemma RejectSetsOnlyStatus(s: Snapshot, caller: int, kind: Kind, id: int)
    requires caller in AdminIds
    ensures var d := Reject(s, caller, kind, id).db;
      && d.whiteList == s.whiteList && d.scamList == s.scamList && d.infoRequests == s.infoRequests
      && (forall k :: k != kind ==> Statuses(d, k) == Statuses(s, k))
      && |Statuses(d, kind)| == |Statuses(s, kind)|
      && (forall i :: 0 <= i < |Statuses(s, kind)| ==>
            Statuses(d, kind)[i] == if IdAt(s, kind, i) == id then Rejected else Statuses(s, kind)[i])
  {
  }

  /** The id of the i-th submission of a kind. */
  function IdAt(s: Snapshot, kind: Kind, i: int): int {
    match kind
    case White => if 0 <= i < |s.applications| then s.applications[i].id else 0
    case Scam => if 0 <= i < |s.reports| then s.reports[i].id else 0
    case Appeal => if 0 <= i < |s.appeals| then s.appeals[i].id else 0
  }

  /** Every decision keeps each table's ids positional. */
  lemma ApproveApplicationKeepsValid(s: Snapshot, caller: int, id: int, storeOk: bool)
    requires ValidSnapshot(s)
    ensures ValidSnapshot(ApproveApplication(s, caller, id, storeOk).db)
  {
    if Find(s.applications, id).Some? {
      InsertKeepsPositional(s.whiteList, Find(s.applications, id).value.data, Approved);
      SetStatusKeepsPositional(s.applications, id, Approved, None);
    }
  }

  lemma ApproveReportKeepsValid(s: Snapshot, caller: int, id: int, storeOk: bool)
    requires ValidSnapshot(s)
    ensures ValidSnapshot(ApproveReport(s, caller, id, storeOk).db)
  {
    if Find(s.reports, id).Some? {
      InsertKeepsPositional(s.scamList, ScamEntry(Find(s.reports, id).value.data), Active);
      SetStatusKeepsPositional(s.reports, id, Approved, None);
    }
  }

  lemma ApproveAppealKeepsValid(s: Snapshot, caller: int, id: int, storeOk: bool)
    requires ValidSnapshot(s)
    ensures ValidSnapshot(ApproveAppeal(s, caller, id, storeOk).db)
  {
    SetStatusKeepsPositional(s.appeals, id, Approved, None);
  }

  lemma RejectKeepsValid(s: Snapshot, caller: int, kind: Kind, id: int)
    requires ValidSnapshot(s)
    ensures ValidSnapshot(Reject(s, caller, kind, id).db)
  {
    match kind
    case White => SetStatusKeepsPositional(s.applications, id, Rejected, None);
    case Scam => SetStatusKeepsPositional(s.reports, id, Rejected, None);
    case Appeal => SetStatusKeepsPositional(s.appeals, id, Rejected, None);
  }

  // ---- info requests ---------------------------------------------------

  /** The user a submission belongs to: the applicant, the reporter or the appellant. */
  function Owner(s: Snapshot, kind: Kind, id: int): (u: Option<int>)
    ensures u.Some? <==> match kind
      case White => Find(s.applications, id).Some?
      case Scam => Find(s.reports, id).Some?
      case Appeal => Find(s.appeals, id).Some?
  {
    match kind
    case White => if Find(s.applications, id).Some? then Some(Find(s.applications, id).value.data.userId) else None
    case Scam => if Find(s.reports, id).Some? then Some(Find(s.reports, id).value.data.reporterId) else None
    case Appeal => if Find(s.appeals, id).Some? then Some(Find(s.appeals, id).value.data.userId) else None
  }

  /**
   * info_white_ / info_scam_ / info_appeal_: a reviewer starts a request
   * about a submission that exists, and the session remembers whom to ask.
   */
  function OpenRequest(s: Snapshot, ud: UserData, caller: int, kind: Kind, id: int): (e: Effect)
    ensures e.db == s && e.data.providing == ud.providing
    ensures e.reply == Denied <==> caller !in AdminIds
    ensures e.next.Some? ==>
      && caller in AdminIds && e.data.requesting.Some?
      && e.data.requesting.value.kind == kind && e.data.requesting.value.submissionId == id
  {
    if caller !in AdminIds then Effect(s, ud, None, Denied)
    else match Owner(s, kind, id)
      case None => Effect(s, ud, None, Silent)
      case Some(u) =>
        Effect(s, ud.(requesting := Some(RequestingInfo(kind, id, u))), Some(AskingInfo(kind)), AskForQuestion(kind, id))
  }

  /** The request row a question creates. */
  function Question(q: RequestingInfo, caller: int, text: string): InfoData {
    InfoData(q.kind, q.submissionId, q.userId, caller, text, None, None)
  }

  /**
   * handle_request_info_*: the reviewer's text is stored as a pending
   * request and sent to the submission's owner; whether it was stored or
   * not, the session key is dropped and the conversation ends. `delivered`
   * says whether the message to the user went through.
   */
  function SendQuestion(s: Snapshot, ud: UserData, caller: int, text: string, storeOk: bool, delivered: bool): (e: Effect)
    ensures e.db.applications == s.applications && e.db.reports == s.reports && e.db.appeals == s.appeals
    ensures e.db.whiteList == s.whiteList && e.db.scamList == s.scamList
    ensures e.data.providing == ud.providing
    ensures caller !in AdminIds ==> e == Effect(s, ud, None, Silent)
    ensures caller in AdminIds ==> e.next == Some(End) && e.data.requesting.None?
    ensures if caller in AdminIds && ud.requesting.Some? && storeOk then
        && |e.db.infoRequests| == |s.infoRequests| + 1 && e.db.infoRequests[..|s.infoRequests|] == s.infoRequests
        && e.db.infoRequests[|s.infoRequests|].status == Waiting
        && e.db.infoRequests[|s.infoRequests|].data.userId == ud.requesting.value.userId
        && e.db.infoRequests[|s.infoRequests|].data.requestText == text
      else e.db == s
  {
    if caller !in AdminIds then Effect(s, ud, None, Silent)
    else if ud.requesting.None? then Effect(s, ud, Some(End), SessionExpired)
    else
      var q := ud.requesting.value;
      var after := ud.(requesting := None);
      if !storeOk then Effect(s, after, Some(End), Silent)
      else
        var id := NextId(s.infoRequests);
        Effect(s.(infoRequests := Insert(s.infoRequests, Question(q, caller, text), Waiting)), after, Some(End),
               if delivered then QuestionSent(q.userId, id) else QuestionUndelivered(id))
  }

  /**
   * A message in the question state: `/start`, `/admin` and the menu
   * buttons go to the main handlers and change nothing here; the entry
   * button of a submission conversation, all three being registered
   * earlier, starts that conversation and leaves this one where it is;
   * other non-command text is the question; the `/cancel` command clears
   * the session; anything else is not handled.
   */
  function AskingHandle(s: Snapshot, ud: UserData, caller: int, handle: string, m: Message, storeOk: bool, delivered: bool): (e: Effect)
    ensures TakenByMainHandlers(m.text) ==> e == Effect(s, ud, None, MainMenu)
    ensures EntryOf(m.text).Some? ==>
      var k := EntryOf(m.text).value;
      e == Effect(s, Begin(k, caller, handle, ud).1, None, Asked(Begin(k, caller, handle, ud).0.step))
    ensures IsCancelCommand(m.text) ==> e == Effect(s, NoData, Some(End), Cancelled)
    ensures e.db != s ==>
      && caller in AdminIds && m.text != "" && !IsCommand(m.text) && !IsMenuText(m.text) && EntryOf(m.text).None?
      && |e.db.infoRequests| == |s.infoRequests| + 1
      && e.db.infoRequests[|s.infoRequests|].data.requestText == m.text
  {
    CancelNotTakenByMainHandlers(m.text);
    EntryTextsAreAnswers(m.text);
    if TakenByMainHandlers(m.text) then Effect(s, ud, None, MainMenu)
    else if EntryOf(m.text).Some? then
      var started := Begin(EntryOf(m.text).value, caller, handle, ud);
      Effect(s, started.1, None, Asked(started.0.step))
    else if m.text != "" && !IsCommand(m.text) then SendQuestion(s, ud, caller, m.text, storeOk, delivered)
    else if IsCancelCommand(m.text) then Effect(s, NoData, Some(End), Cancelled)
    else Effect(s, ud, None, Silent)
  }

  /**
   * provide_: the user who pressed the button may answer only a request
   * that exists and is addressed to them; the status is not checked. The
   * session remembers the request; the answer state follows the type named
   * on the button, and an unknown type starts no conversation.
   */
  function StartAnswer(s: Snapshot, ud: UserData, caller: int, requestType: string, requestId: int): (e: Effect)
    ensures e.db == s && e.data.requesting == ud.requesting
    ensures e.next.Some? ==>
      && Find(s.infoRequests, requestId).Some? && Find(s.infoRequests, requestId).value.data.userId == caller
      && KindOfType(requestType).Some? && e.next == Some(AnsweringInfo(KindOfType(requestType).value))
      && e.data.providing.Some? && e.data.providing.value.requestId == requestId
  {
    match Find(s.infoRequests, requestId)
    case None => Effect(s, ud, None, RequestNotFound)
    case Some(row) =>
      if row.data.userId != caller then Effect(s, ud, None, NotYourRequest)
      else
        var k := KindOfType(requestType);
        Effect(s, ud.(providing := Some(ProvidingInfo(requestId, requestType, row))),
               if k.Some? then Some(AnsweringInfo(k.value)) else None,
               AnswerPrompt(row.data.requestText))
  }

  /** Whether the submission an answer refers to still exists, so that the reviewers are alerted. */
  function SubmissionExists(s: Snapshot, requestType: string, submissionId: int): bool {
    KindOfType(requestType).Some? && Owner(s, KindOfType(requestType).value, submissionId).Some?
  }

  /**
   * handle_provide_info: the message text (or "") and the token of its
   * first file (or "") are stored as the response and the request is
   * completed; the reviewers are alerted when the submission exists; the
   * session key is dropped and the conversation ends.
   */
  function AnswerInfo(s: Snapshot, ud: UserData, m: Message): (e: Effect)
    ensures e.next == Some(End) && e.data.providing.None? && e.data.requesting == ud.requesting
    ensures e.db.applications == s.applications && e.db.reports == s.reports && e.db.appeals == s.appeals
    ensures e.db.whiteList == s.whiteList && e.db.scamList == s.scamList
    ensures |e.db.infoRequests| == |s.infoRequests|
    ensures ud.providing.None? ==> e.db == s
    ensures forall i :: 0 <= i < |s.infoRequests| && e.db.infoRequests[i] != s.infoRequests[i] ==>
      ud.providing.Some? && s.infoRequests[i].id == ud.providing.value.requestId
      && e.db.infoRequests[i].status == Completed
  {
    if ud.providing.None? then Effect(s, ud, Some(End), SessionExpired)
    else
      var p := ud.providing.value;
      var t := s.(infoRequests := Answer(s.infoRequests, p.requestId, m.text, HandleFiles(m)));
      Effect(t, ud.(providing := None), Some(End),
             AnswerForwarded(SubmissionExists(t, p.requestType, p.request.data.submissionId)))
  }

  /**
   * A message in an answer state: `/start`, `/admin` and the menu buttons go
   * to the main handlers and change nothing here; the entry button of a
   * submission conversation starts that conversation and leaves this one
   * where it is; any other text or file is the answer; anything else is not
   * handled.
   */
  function AnsweringHandle(s: Snapshot, ud: UserData, caller: int, handle: string, m: Message): (e: Effect)
    ensures TakenByMainHandlers(m.text) ==> e == Effect(s, ud, None, MainMenu)
    ensures EntryOf(m.text).Some? ==>
      var k := EntryOf(m.text).value;
      e == Effect(s, Begin(k, caller, handle, ud).1, None, Asked(Begin(k, caller, handle, ud).0.step))
    ensures e.next.None? ==> e.db == s && e.data.providing == ud.providing
    ensures e.next.None? && EntryOf(m.text).None? ==> e.data == ud
    ensures e.db != s ==> ud.providing.Some? && (m.text != "" || Attachments(m) != []) && EntryOf(m.text).None?
  {
    EntryTextsAreAnswers(m.text);
    if TakenByMainHandlers(m.text) then Effect(s, ud, None, MainMenu)
    else if EntryOf(m.text).Some? then
      var started := Begin(EntryOf(m.text).value, caller, handle, ud);
      Effect(s, started.1, None, Asked(started.0.step))
    else if m.text != "" || Attachments(m) != [] then AnswerInfo(s, ud, m)
    else Effect(s, ud, None, Silent)
  }

  /** finish_provide_ / cancel_provide_: the session key is dropped and the conversation ends. */
  function CloseAnswer(s: Snapshot, ud: UserData, finished: bool): (e: Effect)
    ensures e.db == s && e.next == Some(End) && e.data.requesting == ud.requesting
    ensures forall u :: OwnedBy(s.infoRequests, e.data, u)
  {
    Effect(s, ud.(providing := None), Some(End), AnswerClosed(finished))
  }

  /**
   * Opening a request needs a reviewer and an existing submission; the
   * session then targets that submission's owner.
   */
  lemma OpenRequestTargetsOwner(s: Snapshot, ud: UserData, caller: int, kind: Kind, id: int)
    ensures var e := OpenRequest(s, ud, caller, kind, id);
      && (e.next.Some? <==> caller in AdminIds && Owner(s, kind, id).Some?)
      && (e.next.Some? ==>
            e.next == Some(AskingInfo(kind)) && e.data.requesting == Some(RequestingInfo(kind, id, Owner(s, kind, id).value)))
      && (e.next.None? ==> e.data == ud)
      && e.db == s
  {
  }

  /**
   * A stored question is a new pending request for the targeted
   * submission and user, with no response yet, and it is then that user's
   * latest pending request of its type.
   */
  lemma QuestionCreatesWaitingRequest(s: Snapshot, ud: UserData, caller: int, text: string, delivered: bool)
    requires Positional(s.infoRequests)
    requires caller in AdminIds && ud.requesting.Some?
    ensures var e := SendQuestion(s, ud, caller, text, true, delivered);
      var q := ud.requesting.value;
      var row := Row(|s.infoRequests| + 1, InfoData(q.kind, q.submissionId, q.userId, caller, text, None, None), Waiting, None);
      && e.db.infoRequests == s.infoRequests + [row]
      && LatestWaiting(e.db.infoRequests, q.userId, Some(q.kind)) == Some(row)
      && e.data.requesting.None? && e.next == Some(End)
  {
    var e := SendQuestion(s, ud, caller, text, true, delivered);
    var q := ud.requesting.value;
    var row := Row(|s.infoRequests| + 1, InfoData(q.kind, q.submissionId, q.userId, caller, text, None, None), Waiting, None);
    var rows := e.db.infoRequests;
    var r := LatestWaiting(rows, q.userId, Some(q.kind));
    assert rows[|s.infoRequests|] == row;
    assert r.Some?;
    assert r.value.id >= row.id;
    var j :| 0 <= j < |rows| && rows[j] == r.value;
    assert rows[j].id == j + 1;
  }

  /** A provide attempt is refused for a request that does not exist or belongs to someone else, and then nothing changes. */
  lemma StartAnswerChecksOwner(s: Snapshot, ud: UserData, caller: int, requestType: string, requestId: int)
    ensures var e := StartAnswer(s, ud, caller, requestType, requestId);
      && e.db == s
      && (Find(s.infoRequests, requestId).None? ==> e == Effect(s, ud, None, RequestNotFound))
      && (Find(s.infoRequests, requestId).Some? && Find(s.infoRequests, requestId).value.data.userId != caller ==>
            e == Effect(s, ud, None, NotYourRequest))
      && (e.data.providing != ud.providing ==>
            && Find(s.infoRequests, requestId).Some?
            && Find(s.infoRequests, requestId).value.data.userId == caller
            && e.data.providing == Some(ProvidingInfo(requestId, requestType, Find(s.infoRequests, requestId).value)))
  {
  }

  /**
   * Answering completes the request with the user's text and file token,
   * and changes no other request and no submission, registry or status.
   */
  lemma AnswerCompletesOnlyTheRequest(s: Snapshot, ud: UserData, m: Message)
    requires Positional(s.infoRequests) && ud.providing.Some?
    requires 1 <= ud.providing.value.requestId <= |s.infoRequests|
    ensures var e := AnswerInfo(s, ud, m);
      var id := ud.providing.value.requestId;
      && e.db.applications == s.applications && e.db.reports == s.reports && e.db.appeals == s.appeals
      && e.db.whiteList == s.whiteList && e.db.scamList == s.scamList
      && |e.db.infoRequests| == |s.infoRequests|
      && e.db.infoRequests[id - 1].status == Completed
      && e.db.infoRequests[id - 1].data.responseText == Some(m.text)
      && e.db.infoRequests[id - 1].data.responseFiles == Some(HandleFiles(m))
      && (forall i :: 0 <= i < |s.infoRequests| && i != id - 1 ==> e.db.infoRequests[i] == s.infoRequests[i])
      && e.data.providing.None? && e.next == Some(End)
  {
  }

  // ---- who may answer -----------------------------------------------

  /**
   * The ownership invariant of a session: a request the user is about to
   * answer exists and is addressed to that user.
   */
  predicate OwnedBy(rows: seq<InfoRow>, ud: UserData, user: int) {
    ud.providing.Some? ==>
      && Find(rows, ud.providing.value.requestId).Some?
      && Find(rows, ud.providing.value.requestId).value.data.userId == user
      && ud.providing.value.request.data.userId == user
  }

  /** Requests only ever gain rows; a row keeps its id and its user. */
  predicate OwnersKept(rows: seq<InfoRow>, rows': seq<InfoRow>) {
    && |rows| <= |rows'|
    && forall i :: 0 <= i < |rows| ==> rows'[i].id == rows[i].id && rows'[i].data.userId == rows[i].data.userId
  }

  lemma OwnedByKept(rows: seq<InfoRow>, rows': seq<InfoRow>, ud: UserData, user: int)
    requires Positional(rows) && Positional(rows')
    requires OwnedBy(rows, ud, user) && OwnersKept(rows, rows')
    ensures OwnedBy(rows', ud, user)
  {
    if ud.providing.Some? {
      var id := ud.providing.value.requestId;
      FindPositional(rows, id);
      FindPositional(rows', id);
    }
  }

  /**
   * What every info handler keeps: the ids stay positional, requests keep
   * their ids and users, and the caller's session stays within the
   * ownership invariant.
   */
  ghost predicate KeepsOwnership(s: Snapshot, e: Effect, caller: int) {
    ValidSnapshot(e.db) && OwnersKept(s.infoRequests, e.db.infoRequests) && OwnedBy(e.db.infoRequests, e.data, caller)
  }

  lemma OpenRequestKeepsOwnership(s: Snapshot, ud: UserData, caller: int, kind: Kind, id: int)
    requires ValidSnapshot(s) && OwnedBy(s.infoRequests, ud, caller)
    ensures KeepsOwnership(s, OpenRequest(s, ud, caller, kind, id), caller)
  {
  }

  lemma AskingKeepsOwnership(s: Snapshot, ud: UserData, caller: int, handle: string, m: Message, storeOk: bool, delivered: bool)
    requires ValidSnapshot(s) && OwnedBy(s.infoRequests, ud, caller)
    ensures KeepsOwnership(s, AskingHandle(s, ud, caller, handle, m, storeOk, delivered), caller)
  {
    var e := AskingHandle(s, ud, caller, handle, m, storeOk, delivered);
    if e.db != s {
      var q := Question(ud.requesting.value, caller, m.text);
      InsertKeepsPositional(s.infoRequests, q, Waiting);
      OwnedByKept(s.infoRequests, e.db.infoRequests, ud, caller);
    }
  }

  lemma StartAnswerKeepsOwnership(s: Snapshot, ud: UserData, caller: int, requestType: string, id: int)
    requires ValidSnapshot(s) && OwnedBy(s.infoRequests, ud, caller)
    ensures KeepsOwnership(s, StartAnswer(s, ud, caller, requestType, id), caller)
  {
  }

  lemma AnsweringKeepsOwnership(s: Snapshot, ud: UserData, caller: int, handle: string, m: Message)
    requires ValidSnapshot(s) && OwnedBy(s.infoRequests, ud, caller)
    ensures KeepsOwnership(s, AnsweringHandle(s, ud, caller, handle, m), caller)
  {
    var e := AnsweringHandle(s, ud, caller, handle, m);
    if e.db == s {
      assert e.data.providing == ud.providing || e.data.providing.None?;
    }
  }

  lemma CloseAnswerKeepsOwnership(s: Snapshot, ud: UserData, caller: int, finished: bool)
    requires ValidSnapshot(s) && OwnedBy(s.infoRequests, ud, caller)
    ensures KeepsOwnership(s, CloseAnswer(s, ud, finished), caller)
  {
  }

  /**
   * Only the addressee answers: under the ownership invariant, every
   * request an answer changes is addressed to the user who sent it.
   */
  lemma OnlyAddresseeAnswers(s: Snapshot, ud: UserData, caller: int, m: Message)
    requires Positional(s.infoRequests) && OwnedBy(s.infoRequests, ud, caller)
    ensures var e := AnswerInfo(s, ud, m);
      forall i :: 0 <= i < |s.infoRequests| && e.db.infoRequests[i] != s.infoRequests[i] ==>
        s.infoRequests[i].data.userId == caller
  {
    var e := AnswerInfo(s, ud, m);
    if ud.providing.Some? {
      var id := ud.providing.value.requestId;
      forall i | 0 <= i < |s.infoRequests| && e.db.infoRequests[i] != s.infoRequests[i]
        ensures s.infoRequests[i].data.userId == caller
      {
        assert s.infoRequests[i].id == id;
        FindPositional(s.infoRequests, id);
      }
    }
  }
}
