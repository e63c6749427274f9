/**
 * The running bot: the store and every user's session dictionary
 * (context.user_data), with one method per handler. Each method does to the
 * store and the sessions what the matching function of Conversation or
 * Moderation says, and keeps the ownership invariant: a session that is
 * about to answer an info request holds a request addressed to its user.
 */
module Handlers {
  import opened Options
  import opened Tables
  import opened Files
  import opened Store
  import opened Conversation
  import opened Moderation

  class Bot {
    const db: Database
    var sessions: map<int, UserData>

    /** A user's session; a user never seen has an empty one. */
    function Session(user: int): UserData
      reads this
    {
      if user in sessions then sessions[user] else NoData
    }

    ghost predicate Valid()
      reads this, db
    {
      && db.Valid()
      && forall u :: u in sessions ==> OwnedBy(db.infoRequests, sessions[u], u)
    }

    constructor (store: Database)
      requires store.Valid()
      ensures Valid()
      ensures db == store && sessions == map[]
    {
      db := store;
      sessions := map[];
    }

    /** Ownership of every session survives a change of the requests that keeps their owners. */
    ghost method KeepOwnership(before: seq<InfoRow>)
      requires Positional(before) && db.Valid()
      requires OwnersKept(before, db.infoRequests)
      requires forall u :: u in sessions ==> OwnedBy(before, sessions[u], u)
      ensures Valid()
    {
      forall u | u in sessions
        ensures OwnedBy(db.infoRequests, sessions[u], u)
      {
        OwnedByKept(before, db.infoRequests, sessions[u], u);
      }
    }

    // ---- submissions --------------------------------------------------

    /** start_white_list_application / start_scam_report / start_appeal. */
    method StartSubmission(kind: Kind, user: int, handle: string) returns (next: Conv, reply: Reply)
      requires Valid()
      modifies this`sessions
      ensures Valid()
      ensures next == Begin(kind, user, handle, old(Session(user))).0 && next.At?
      ensures sessions == old(sessions)[user := Begin(kind, user, handle, old(Session(user))).1]
      ensures Consistent(next.step, Session(user)) && reply == Asked(next.step)
    {
      BeginIsConsistent(kind, user, handle, Session(user));
      var started := Begin(kind, user, handle, Session(user));
      sessions := sessions[user := started.1];
      next, reply := started.0, Asked(started.0.step);
    }

    /**
     * One message to a submission conversation at step `s` from the user
     * `user`, whose username is `handle`. A confirmed
     * form is handed to the store; the user is told its id, or that storing
     * failed, and the conversation ends either way.
     */
    method Step(s: Step, user: int, handle: string, m: Message, storeOk: bool) returns (next: Conv, reply: Reply)
      requires Valid()
      modifies this`sessions, db`applications, db`reports, db`appeals
      ensures Valid()
      ensures var o := Handle(s, old(Session(user)), m, user, handle, old(db.scamList));
        match o
        case Raised =>
          next == At(s) && reply == Silent && sessions == old(sessions) && db.State() == old(db.State())
        case Moved(n, d, r) =>
          next == n && reply == r && sessions == old(sessions)[user := d] && db.State() == old(db.State())
        case Finalize(d, f) =>
          && next == End && sessions == old(sessions)[user := d]
          && db.State() == Submit(old(db.State()), f, storeOk)
          && reply == if storeOk && Complete(f) then Submitted(KindOfForm(f), NextIdOf(old(db.State()), KindOfForm(f)))
                      else SubmitFailed(KindOfForm(f))
    {
      var ud := Session(user);
      HandleKeepsInfoKeys(s, ud, m, user, handle, db.scamList);
      var o := Handle(s, ud, m, user, handle, db.scamList);
      match o
      case Raised =>
        next, reply := At(s), Silent;
      case Moved(n, d, r) =>
        sessions := sessions[user := d];
        next, reply := n, r;
      case Finalize(d, f) =>
        var id := StoreForm(f, storeOk);
        sessions := sessions[user := d];
        next := End;
        reply := if id > 0 then Submitted(KindOfForm(f), id) else SubmitFailed(KindOfForm(f));
    }

    /** The add_* call of a confirm step: the new id, or 0 when nothing was stored. */
    method StoreForm(f: Submission, storeOk: bool) returns (id: int)
      requires Valid()
      modifies db`applications, db`reports, db`appeals
      ensures Valid()
      ensures db.State() == Submit(old(db.State()), f, storeOk)
      ensures id > 0 <==> storeOk && Complete(f)
      ensures id > 0 ==> id == NextIdOf(old(db.State()), KindOfForm(f))
    {
      match f {
        case ApplicationForm(a) => id := db.AddWhiteListApplication(a, storeOk);
        case ReportForm(a) => id := db.AddScamReport(a, storeOk);
        case AppealForm(a) => id := db.AddAppeal(a, storeOk);
      }
    }

    // ---- decisions ----------------------------------------------------

    /** approve_white_. */
    method ApproveApplication(caller: int, id: int, storeOk: bool) returns (reply: Reply)
      requires Valid()
      modifies db`applications, db`whiteList
      ensures Valid()
      ensures Decision(db.State(), reply) == Moderation.ApproveApplication(old(db.State()), caller, id, storeOk)
    {
      if caller !in AdminIds {
        return Denied;
      }
      var row := db.GetApplication(id);
      if row.None? {
        return Silent;
      }
      var ok := db.AddToWhiteList(row.value.data, storeOk);
      if ok {
        db.UpdateApplicationStatus(id, Approved, None);
        reply := Decided(White, id, Approved);
      } else {
        reply := RegistryWriteFailed;
      }
    }

    /** approve_scam_. */
    method ApproveReport(caller: int, id: int, storeOk: bool) returns (reply: Reply)
      requires Valid()
      modifies db`reports, db`scamList
      ensures Valid()
      ensures Decision(db.State(), reply) == Moderation.ApproveReport(old(db.State()), caller, id, storeOk)
    {
      if caller !in AdminIds {
        return Denied;
      }
      var row := db.GetReport(id);
      if row.None? {
        return Silent;
      }
      var ok := db.AddToScamList(ScamEntry(row.value.data), storeOk);
      if ok {
        db.UpdateReportStatus(id, Approved, None);
        reply := Decided(Scam, id, Approved);
      } else {
        reply := RegistryWriteFailed;
      }
    }

    /** approve_appeal_. */
    method ApproveAppeal(caller: int, id: int, storeOk: bool) returns (reply: Reply)
      requires Valid()
      modifies db`appeals, db`scamList
      ensures Valid()
      ensures Decision(db.State(), reply) == Moderation.ApproveAppeal(old(db.State()), caller, id, storeOk)
    {
      if caller !in AdminIds {
        return Denied;
      }
      var row := db.GetAppeal(id);
      if row.None? {
        return Silent;
      }
      db.UpdateAppealStatus(id, Approved, None);
      var _ := db.RemoveFromScamList(row.value.data.username, storeOk);
      reply := Decided(Appeal, id, Approved);
    }

    /** reject_white_ / reject_scam_ / reject_appeal_. */
    method Reject(caller: int, kind: Kind, id: int) returns (reply: Reply)
      requires Valid()
      modifies db`applications, db`reports, db`appeals
      ensures Valid()
      ensures Decision(db.State(), reply) == Moderation.Reject(old(db.State()), caller, kind, id)
    {
      if caller !in AdminIds {
        return Denied;
      }
      match kind {
        case White => db.UpdateApplicationStatus(id, Rejected, None);
        case Scam => db.UpdateReportStatus(id, Rejected, None);
        case Appeal => db.UpdateAppealStatus(id, Rejected, None);
      }
      reply := Decided(kind, id, Rejected);
    }

    // ---- info requests -------------------------------------------------

    /** info_white_ / info_scam_ / info_appeal_. */
    method OpenRequest(caller: int, kind: Kind, id: int) returns (next: Option<Conv>, reply: Reply)
      requires Valid()
      modifies this`sessions
      ensures Valid()
      ensures var e := Moderation.OpenRequest(old(db.State()), old(Session(caller)), caller, kind, id);
        db.State() == e.db && sessions == old(sessions)[caller := e.data] && next == e.next && reply == e.reply
    {
      var ud := Session(caller);
      if caller !in AdminIds {
        sessions := sessions[caller := ud];
        return None, Denied;
      }
      var owner: Option<int>;
      match kind {
        case White =>
          var row := db.GetApplication(id);
          owner := if row.Some? then Some(row.value.data.userId) else None;
        case Scam =>
          var row := db.GetReport(id);
          owner := if row.Some? then Some(row.value.data.reporterId) else None;
        case Appeal =>
          var row := db.GetAppeal(id);
          owner := if row.Some? then Some(row.value.data.userId) else None;
      }
      if owner.None? {
        sessions := sessions[caller := ud];
        return None, Silent;
      }
      sessions := sessions[caller := ud.(requesting := Some(RequestingInfo(kind, id, owner.value)))];
      next, reply := Some(AskingInfo(kind)), AskForQuestion(kind, id);
    }

    /**
     * A message in a question state (a main-menu handler, the entry point of
     * a submission conversation, handle_request_info_*, or the `/cancel`
     * fallback). `handle` is the sender's username; `delivered` says whether
     * sending the question to the user went through.
     */
    method AskQuestion(caller: int, handle: string, m: Message, storeOk: bool, delivered: bool) returns (next: Option<Conv>, reply: Reply)
      requires Valid()
      modifies this`sessions, db`infoRequests
      ensures Valid()
      ensures var e := AskingHandle(old(db.State()), old(Session(caller)), caller, handle, m, storeOk, delivered);
        db.State() == e.db && sessions == old(sessions)[caller := e.data] && next == e.next && reply == e.reply
    {
      var ud := Session(caller);
      if TakenByMainHandlers(m.text) {
        sessions := sessions[caller := ud];
        return None, MainMenu;
      }
      EntryTextsAreAnswers(m.text);
      if EntryOf(m.text).Some? {
        var _, started := StartSubmission(EntryOf(m.text).value, caller, handle);
        return None, started;
      }
      if !(m.text != "" && !IsCommand(m.text)) {
        if IsCancelCommand(m.text) {
          sessions := sessions[caller := NoData];
          return Some(End), Cancelled;
        }
        sessions := sessions[caller := ud];
        return None, Silent;
      }
      if caller !in AdminIds {
        sessions := sessions[caller := ud];
        return None, Silent;
      }
      if ud.requesting.None? {
        sessions := sessions[caller := ud];
        return Some(End), SessionExpired;
      }
      var q := ud.requesting.value;
      ghost var before := db.infoRequests;
      var id := db.AddInfoRequest(q.kind, q.submissionId, q.userId, caller, m.text, storeOk);
      sessions := sessions[caller := ud.(requesting := None)];
      KeepOwnership(before);
      next := Some(End);
      reply := if id == 0 then Silent else if delivered then QuestionSent(q.userId, id) else QuestionUndelivered(id);
    }

    /** The provide_ branch of handle_callback. */
    method StartAnswer(caller: int, requestType: string, requestId: int) returns (next: Option<Conv>, reply: Reply)
      requires Valid()
      modifies this`sessions
      ensures Valid()
      ensures var e := Moderation.StartAnswer(old(db.State()), old(Session(caller)), caller, requestType, requestId);
        db.State() == e.db && sessions == old(sessions)[caller := e.data] && next == e.next && reply == e.reply
    {
      var ud := Session(caller);
      var row := db.GetInfoRequest(requestId);
      if row.None? {
        sessions := sessions[caller := ud];
        return None, RequestNotFound;
      }
      if row.value.data.userId != caller {
        sessions := sessions[caller := ud];
        return None, NotYourRequest;
      }
      sessions := sessions[caller := ud.(providing := Some(ProvidingInfo(requestId, requestType, row.value)))];
      var k := KindOfType(requestType);
      next := if k.Some? then Some(AnsweringInfo(k.value)) else None;
      reply := AnswerPrompt(row.value.data.requestText);
    }

    /**
     * A message in an answer state (a main-menu handler, the entry point of a
     * submission conversation, or handle_provide_info). Only a request
     * addressed to the sender is changed.
     */
    method ProvideAnswer(caller: int, handle: string, m: Message) returns (next: Option<Conv>, reply: Reply)
      requires Valid()
      modifies this`sessions, db`infoRequests
      ensures Valid()
      ensures var e := AnsweringHandle(old(db.State()), old(Session(caller)), caller, handle, m);
        db.State() == e.db && sessions == old(sessions)[caller := e.data] && next == e.next && reply == e.reply
      ensures forall i :: 0 <= i < |old(db.infoRequests)| && db.infoRequests[i] != old(db.infoRequests)[i] ==>
        old(db.infoRequests)[i].data.userId == caller
    {
      var ud := Session(caller);
      if TakenByMainHandlers(m.text) {
        sessions := sessions[caller := ud];
        return None, MainMenu;
      }
      EntryTextsAreAnswers(m.text);
      if EntryOf(m.text).Some? {
        var _, started := StartSubmission(EntryOf(m.text).value, caller, handle);
        return None, started;
      }
      if !(m.text != "" || Attachments(m) != []) {
        sessions := sessions[caller := ud];
        return None, Silent;
      }
      if ud.providing.None? {
        sessions := sessions[caller := ud];
        return Some(End), SessionExpired;
      }
      reply := ForwardAnswer(caller, m);
      next := Some(End);
    }

    /**
     * handle_provide_info once a request is remembered: the answer is stored
     * on it, the reviewers are alerted when the submission still exists, and
     * the session key is dropped.
     */
    method ForwardAnswer(caller: int, m: Message) returns (reply: Reply)
      requires Valid() && Session(caller).providing.Some?
      modifies this`sessions, db`infoRequests
      ensures Valid()
      ensures var e := AnswerInfo(old(db.State()), old(Session(caller)), m);
        db.State() == e.db && sessions == old(sessions)[caller := e.data] && reply == e.reply
      ensures forall i :: 0 <= i < |old(db.infoRequests)| && db.infoRequests[i] != old(db.infoRequests)[i] ==>
        old(db.infoRequests)[i].data.userId == caller
    {
      var ud := Session(caller);
      var p := ud.providing.value;
      ghost var before := db.infoRequests;
      OnlyAddresseeAnswers(db.State(), ud, caller, m);
      db.UpdateInfoRequestResponse(p.requestId, m.text, HandleFiles(m));
      var alerted := SubmissionStillExists(p.requestType, p.request.data.submissionId);
      sessions := sessions[caller := ud.(providing := None)];
      KeepOwnership(before);
      reply := AnswerForwarded(alerted);
    }

    /** The lookup after an answer: the reviewers are alerted only when the submission still exists. */
    method SubmissionStillExists(requestType: string, submissionId: int) returns (alerted: bool)
      requires db.Valid()
      ensures alerted == SubmissionExists(db.State(), requestType, submissionId)
    {
      alerted := false;
      var k := KindOfType(requestType);
      if k == Some(White) {
        alerted := db.GetApplication(submissionId).Some?;
      } else if k == Some(Scam) {
        alerted := db.GetReport(submissionId).Some?;
      } else if k == Some(Appeal) {
        alerted := db.GetAppeal(submissionId).Some?;
      }
    }

    /** finish_provide_ / cancel_provide_. */
    method CloseAnswer(caller: int, finished: bool) returns (next: Option<Conv>, reply: Reply)
      requires Valid()
      modifies this`sessions
      ensures Valid()
      ensures var e := Moderation.CloseAnswer(old(db.State()), old(Session(caller)), finished);
        db.State() == e.db && sessions == old(sessions)[caller := e.data] && next == e.next && reply == e.reply
    {
      sessions := sessions[caller := Session(caller).(providing := None)];
      next, reply := Some(End), AnswerClosed(finished);
    }
  }
}
