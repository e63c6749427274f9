/**
 * The moderation store (class Database of bot.py): submission tables
 * (white-list applications, scam reports, appeals), the two public
 * registries (white list, scam list) and the info-request table, each held
 * in memory as a sequence of rows in insertion order.
 */
module Store {
  import opened Options
  import opened Tables
  import Paging

  /** Status of a submission: 'pending', 'approved', 'rejected'. The white list uses 'approved'. */
  datatype Status = Pending | Approved | Rejected

  /** Status of a scam-list row: 'active', or 'removed' after a successful appeal. */
  datatype ScamStatus = Active | Removed

  /** Status of an info request: 'pending' until answered, then 'completed'. */
  datatype InfoStatus = Waiting | Completed

  /** The submission kind an info request refers to: request_type 'white', 'scam' or 'appeal'. */
  datatype Kind = White | Scam | Appeal

  /** Columns of white_list_applications, and of white_list, which has the same ones. */
  datatype ApplicationData = ApplicationData(
    userId: int, username: string, activity: string, city: string,
    link: string, description: string, proofs: string, fileIds: string)

  /** Columns of scam_reports. */
  datatype ReportData = ReportData(
    reporterId: int, scammerUsername: string, description: string, proofs: string, fileIds: string)

  /** Columns of appeal_applications. */
  datatype AppealData = AppealData(
    userId: int, username: string, explanation: string, proofs: string, fileIds: string)

  /** Columns of scam_list; user_id is NULL for rows added from a report. */
  datatype ScamData = ScamData(
    userId: Option<int>, username: string, reason: string, proofs: string, fileIds: string)

  /** Columns of info_requests; the response columns are NULL until answered. */
  datatype InfoData = InfoData(
    requestType: Kind, submissionId: int, userId: int, adminId: int, requestText: string,
    responseText: Option<string>, responseFiles: Option<string>)

  type ApplicationRow = Row<ApplicationData, Status>
  type ReportRow = Row<ReportData, Status>
  type AppealRow = Row<AppealData, Status>
  type ScamRow = Row<ScamData, ScamStatus>
  type InfoRow = Row<InfoData, InfoStatus>

  /**
   * The dictionaries a conversation collects and hands to add_*: the keys
   * set when the conversation starts are plain fields, the ones added step
   * by step are optional.
   */
  datatype ApplicationDraft = ApplicationDraft(
    userId: int, username: string,
    activity: Option<string>, city: Option<string>, link: Option<string>,
    description: Option<string>, proofs: Option<string>, fileIds: Option<string>)

  datatype ReportDraft = ReportDraft(
    reporterId: int, scammerUsername: string,
    description: Option<string>, proofs: Option<string>, fileIds: Option<string>)

  datatype AppealDraft = AppealDraft(
    userId: int, username: string,
    explanation: Option<string>, proofs: Option<string>, fileIds: Option<string>)

  /**
   * The row an insert writes from a draft, or None when a key the insert
   * reads with `d[key]` is missing (the insert then raises inside its try
   * and reports failure). file_ids is read with `.get(key, '')`.
   */
  function ApplicationOf(d: ApplicationDraft): Option<ApplicationData> {
    if d.activity.Some? && d.city.Some? && d.link.Some? && d.description.Some? && d.proofs.Some? then
      Some(ApplicationData(d.userId, d.username, d.activity.value, d.city.value, d.link.value,
                           d.description.value, d.proofs.value, d.fileIds.GetOr("")))
    else None
  }

  function ReportOf(d: ReportDraft): Option<ReportData> {
    if d.description.Some? && d.proofs.Some? then
      Some(ReportData(d.reporterId, d.scammerUsername, d.description.value, d.proofs.value, d.fileIds.GetOr("")))
    else None
  }

  function AppealOf(d: AppealDraft): Option<AppealData> {
    if d.explanation.Some? && d.proofs.Some? then
      Some(AppealData(d.userId, d.username, d.explanation.value, d.proofs.value, d.fileIds.GetOr("")))
    else None
  }

  /** The number of 'active' scam-list rows for a username. */
  function ActiveCount(rows: seq<ScamRow>, username: string): (n: nat)
    ensures n > 0 <==> exists i :: 0 <= i < |rows| && rows[i].data.username == username && rows[i].status == Active
  {
    if rows == [] then 0
    else
      var rest := ActiveCount(rows[1..], username);
      assert forall i :: 1 <= i < |rows| ==> rows[i] == rows[1..][i - 1];
      (if rows[0].data.username == username && rows[0].status == Active then 1 else 0) + rest
  }

  /** is_user_in_scam_list: some row for the username is 'active'. */
  function Listed(rows: seq<ScamRow>, username: string): (b: bool)
    ensures b <==> exists i :: 0 <= i < |rows| && rows[i].data.username == username && rows[i].status == Active
  {
    ActiveCount(rows, username) > 0
  }

  /**
   * remove_from_scam_list: `UPDATE scam_list SET status = 'removed' WHERE
   * username = ?`. Every row of that username is kept and marked removed;
   * every other row is untouched.
   */
  function SoftRemove(rows: seq<ScamRow>, username: string): (r: seq<ScamRow>)
    ensures |r| == |rows|
    ensures forall i :: 0 <= i < |rows| ==>
      r[i] == if rows[i].data.username == username then rows[i].(status := Removed) else rows[i]
  {
    if rows == [] then []
    else
      [if rows[0].data.username == username then rows[0].(status := Removed) else rows[0]]
      + SoftRemove(rows[1..], username)
  }

  /** After a soft removal the username is no longer listed, and no row is lost: ids and contents stay. */
  lemma SoftRemoveDelists(rows: seq<ScamRow>, username: string)
    ensures !Listed(SoftRemove(rows, username), username)
    ensures forall i :: 0 <= i < |rows| ==>
      SoftRemove(rows, username)[i].id == rows[i].id && SoftRemove(rows, username)[i].data == rows[i].data
  {
  }

  /** A soft removal leaves every other username listed exactly as before. */
  lemma SoftRemoveKeepsOthers(rows: seq<ScamRow>, username: string, other: string)
    requires other != username
    ensures Listed(SoftRemove(rows, username), other) == Listed(rows, other)
  {
    var r := SoftRemove(rows, username);
    if Listed(r, other) {
      var i :| 0 <= i < |r| && r[i].data.username == other && r[i].status == Active;
      assert rows[i].data.username == other && rows[i].status == Active;
    }
    if Listed(rows, other) {
      var i :| 0 <= i < |rows| && rows[i].data.username == other && rows[i].status == Active;
      assert r[i].data.username == other && r[i].status == Active;
    }
  }

  /**
   * update_info_request_response: the request with that id gets the
   * response text and files and becomes 'completed'; its other columns and
   * every other request stay as they were.
   */
  function Answer(rows: seq<InfoRow>, id: int, text: string, files: string): (r: seq<InfoRow>)
    ensures |r| == |rows|
    ensures forall i :: 0 <= i < |rows| ==>
      r[i] == if rows[i].id == id
              then rows[i].(data := rows[i].data.(responseText := Some(text), responseFiles := Some(files)),
                            status := Completed)
              else rows[i]
  {
    if rows == [] then []
    else
      var head := if rows[0].id == id
                  then rows[0].(data := rows[0].data.(responseText := Some(text), responseFiles := Some(files)),
                                status := Completed)
                  else rows[0];
      [head] + Answer(rows[1..], id, text, files)
  }

  predicate WaitingFor(r: InfoRow, userId: int, kind: Option<Kind>) {
    r.data.userId == userId && (kind.None? || r.data.requestType == kind.value) && r.status == Waiting
  }

  /**
   * get_active_info_request: the 'pending' request of the user (of the
   * given type, when one is given) with the highest id.
   */
  function LatestWaiting(rows: seq<InfoRow>, userId: int, kind: Option<Kind>): (r: Option<InfoRow>)
    ensures r.Some? ==> r.value in rows && WaitingFor(r.value, userId, kind)
    ensures r.Some? ==> forall i :: 0 <= i < |rows| && WaitingFor(rows[i], userId, kind) ==> rows[i].id <= r.value.id
    ensures r.None? ==> forall i :: 0 <= i < |rows| ==> !WaitingFor(rows[i], userId, kind)
  {
    if rows == [] then None
    else
      var rest := LatestWaiting(rows[1..], userId, kind);
      assert forall i :: 1 <= i < |rows| ==> rows[i] == rows[1..][i - 1];
      if WaitingFor(rows[0], userId, kind) && (rest.None? || rest.value.id < rows[0].id) then Some(rows[0])
      else rest
  }

  /**
   * get_info_request_by_type_id: the first 'pending' request for the given
   * submission (the query has no ORDER BY; the store returns rows in
   * insertion order).
   */
  function FirstWaitingFor(rows: seq<InfoRow>, kind: Kind, submissionId: int): (r: Option<InfoRow>)
    ensures r.Some? ==> r.value in rows && r.value.data.requestType == kind
                        && r.value.data.submissionId == submissionId && r.value.status == Waiting
    ensures r.None? ==> forall i :: 0 <= i < |rows| ==>
      !(rows[i].data.requestType == kind && rows[i].data.submissionId == submissionId && rows[i].status == Waiting)
  {
    if rows == [] then None
    else if rows[0].data.requestType == kind && rows[0].data.submissionId == submissionId && rows[0].status == Waiting
    then Some(rows[0])
    else
      assert forall i :: 1 <= i < |rows| ==> rows[i] == rows[1..][i - 1];
      FirstWaitingFor(rows[1..], kind, submissionId)
  }

  /** `ORDER BY created_at DESC`: newest first, insertion order standing for the clock. */
  function Newest<T>(rows: seq<T>): (r: seq<T>)
    ensures |r| == |rows|
    ensures forall i :: 0 <= i < |rows| ==> r[i] == rows[|rows| - 1 - i]
  {
    if rows == [] then [] else Newest(rows[1..]) + [rows[0]]
  }

  /** The contents of every table at one moment. */
  datatype Snapshot = Snapshot(
    applications: seq<ApplicationRow>, reports: seq<ReportRow>, appeals: seq<AppealRow>,
    whiteList: seq<ApplicationRow>, scamList: seq<ScamRow>, infoRequests: seq<InfoRow>)

  /** Every table's ids are its positions counted from 1 (rows are never deleted). */
  ghost predicate ValidSnapshot(s: Snapshot) {
    && Positional(s.applications) && Positional(s.reports) && Positional(s.appeals)
    && Positional(s.whiteList) && Positional(s.scamList) && Positional(s.infoRequests)
  }

  class Database {
    var applications: seq<ApplicationRow>
    var reports: seq<ReportRow>
    var appeals: seq<AppealRow>
    var whiteList: seq<ApplicationRow>
    var scamList: seq<ScamRow>
    var infoRequests: seq<InfoRow>

    function State(): Snapshot
      reads this
    {
      Snapshot(applications, reports, appeals, whiteList, scamList, infoRequests)
    }

    ghost predicate Valid()
      reads this
    {
      ValidSnapshot(State())
    }

    /** init_db on an empty database file. */
    constructor ()
      ensures Valid()
      ensures applications == [] && reports == [] && appeals == []
      ensures whiteList == [] && scamList == [] && infoRequests == []
    {
      applications, reports, appeals := [], [], [];
      whiteList, scamList, infoRequests := [], [], [];
    }

    // ---- registries ---------------------------------------------------

    /** add_to_white_list: `storeOk` is whether the store accepted the write. */
    method AddToWhiteList(d: ApplicationData, storeOk: bool) returns (ok: bool)
      requires Valid()
      modifies this`whiteList
      ensures Valid()
      ensures ok == storeOk
      ensures whiteList == if ok then Insert(old(whiteList), d, Approved) else old(whiteList)
    {
      ok := storeOk;
      if ok {
        InsertKeepsPositional(whiteList, d, Approved);
        whiteList := Insert(whiteList, d, Approved);
      }
    }

    /** add_to_scam_list: new rows start 'active'. */
    method AddToScamList(d: ScamData, storeOk: bool) returns (ok: bool)
      requires Valid()
      modifies this`scamList
      ensures Valid()
      ensures ok == storeOk
      ensures scamList == if ok then Insert(old(scamList), d, Active) else old(scamList)
    {
      ok := storeOk;
      if ok {
        InsertKeepsPositional(scamList, d, Active);
        scamList := Insert(scamList, d, Active);
      }
    }

    /** is_user_in_scam_list. */
    function IsUserInScamList(username: string): (b: bool)
      reads this
      ensures b <==> exists i :: 0 <= i < |scamList| && scamList[i].data.username == username
                                 && scamList[i].status == Active
    {
      Listed(scamList, username)
    }

    /** remove_from_scam_list: soft delete of every row of the username. */
    method RemoveFromScamList(username: string, storeOk: bool) returns (ok: bool)
      requires Valid()
      modifies this`scamList
      ensures Valid()
      ensures ok == storeOk
      ensures scamList == if ok then SoftRemove(old(scamList), username) else old(scamList)
      ensures ok ==> !IsUserInScamList(username)
    {
      ok := storeOk;
      if ok {
        SoftRemoveDelists(scamList, username);
        scamList := SoftRemove(scamList, username);
      }
    }

    /** get_white_list: a page of 'approved' rows, newest first. */
    function GetWhiteList(page: int): (r: seq<ApplicationRow>)
      reads this
      ensures |r| <= Paging.ItemsPerPage
      ensures forall i :: 0 <= i < |r| ==> r[i] in whiteList && r[i].status == Approved
      ensures page >= 1 ==> (r != [] <==> page <= Paging.TotalPages(GetWhiteListCount()))
      ensures page >= 1 ==> Paging.Window(Newest(Select(whiteList, Approved)), page, r)
    {
      var rows := Newest(Select(whiteList, Approved));
      var r := Paging.PageOf(rows, page);
      assert forall i :: 0 <= i < |r| ==> r[i] in rows;
      if page >= 1 then Paging.PageNonEmptyIffInRange(rows, page); r else r
    }

    /** get_white_list_count: the number of rows the listing pages through. */
    function GetWhiteListCount(): (n: nat)
      reads this
      ensures n == |Select(whiteList, Approved)| && n <= |whiteList|
    {
      Count(whiteList, Approved)
    }

    /** get_scam_list: a page of 'active' rows, newest first. */
    function GetScamList(page: int): (r: seq<ScamRow>)
      reads this
      ensures |r| <= Paging.ItemsPerPage
      ensures forall i :: 0 <= i < |r| ==> r[i] in scamList && r[i].status == Active
      ensures page >= 1 ==> (r != [] <==> page <= Paging.TotalPages(GetScamListCount()))
      ensures page >= 1 ==> Paging.Window(Newest(Select(scamList, Active)), page, r)
    {
      var rows := Newest(Select(scamList, Active));
      var r := Paging.PageOf(rows, page);
      assert forall i :: 0 <= i < |r| ==> r[i] in rows;
      if page >= 1 then Paging.PageNonEmptyIffInRange(rows, page); r else r
    }

    /** get_scam_list_count: the number of rows the listing pages through. */
    function GetScamListCount(): (n: nat)
      reads this
      ensures n == |Select(scamList, Active)| && n <= |scamList|
    {
      Count(scamList, Active)
    }

    // ---- submissions --------------------------------------------------

    /** add_white_list_application: the new id, or 0 when the insert failed. */
    method AddWhiteListApplication(d: ApplicationDraft, storeOk: bool) returns (id: int)
      requires Valid()
      modifies this`applications
      ensures Valid()
      ensures id >= 0
      ensures id > 0 <==> storeOk && ApplicationOf(d).Some?
      ensures id > 0 ==> id == NextId(old(applications))
                         && applications == Insert(old(applications), ApplicationOf(d).value, Pending)
      ensures id == 0 ==> applications == old(applications)
    {
      var data := ApplicationOf(d);
      if storeOk && data.Some? {
        id := NextId(applications);
        InsertKeepsPositional(applications, data.value, Pending);
        applications := Insert(applications, data.value, Pending);
      } else {
        id := 0;
      }
    }

    /** add_scam_report. */
    method AddScamReport(d: ReportDraft, storeOk: bool) returns (id: int)
      requires Valid()
      modifies this`reports
      ensures Valid()
      ensures id >= 0
      ensures id > 0 <==> storeOk && ReportOf(d).Some?
      ensures id > 0 ==> id == NextId(old(reports))
                         && reports == Insert(old(reports), ReportOf(d).value, Pending)
      ensures id == 0 ==> reports == old(reports)
    {
      var data := ReportOf(d);
      if storeOk && data.Some? {
        id := NextId(reports);
        InsertKeepsPositional(reports, data.value, Pending);
        reports := Insert(reports, data.value, Pending);
      } else {
        id := 0;
      }
    }

    /** add_appeal. */
    method AddAppeal(d: AppealDraft, storeOk: bool) returns (id: int)
      requires Valid()
      modifies this`appeals
      ensures Valid()
      ensures id >= 0
      ensures id > 0 <==> storeOk && AppealOf(d).Some?
      ensures id > 0 ==> id == NextId(old(appeals))
                         && appeals == Insert(old(appeals), AppealOf(d).value, Pending)
      ensures id == 0 ==> appeals == old(appeals)
    {
      var data := AppealOf(d);
      if storeOk && data.Some? {
        id := NextId(appeals);
        InsertKeepsPositional(appeals, data.value, Pending);
        appeals := Insert(appeals, data.value, Pending);
      } else {
        id := 0;
      }
    }

    /** get_white_list_application_by_id: found exactly for the ids handed out so far. */
    function GetApplication(id: int): (r: Option<ApplicationRow>)
      requires Valid()
      reads this
      ensures r.Some? <==> 1 <= id <= |applications|
      ensures r.Some? ==> r.value == applications[id - 1]
    {
      FindPositional(applications, id);
      Find(applications, id)
    }

    /** get_scam_report_by_id: found exactly for the ids handed out so far. */
    function GetReport(id: int): (r: Option<ReportRow>)
      requires Valid()
      reads this
      ensures r.Some? <==> 1 <= id <= |reports|
      ensures r.Some? ==> r.value == reports[id - 1]
    {
      FindPositional(reports, id);
      Find(reports, id)
    }

    /** get_appeal_by_id: found exactly for the ids handed out so far. */
    function GetAppeal(id: int): (r: Option<AppealRow>)
      requires Valid()
      reads this
      ensures r.Some? <==> 1 <= id <= |appeals|
      ensures r.Some? ==> r.value == appeals[id - 1]
    {
      FindPositional(appeals, id);
      Find(appeals, id)
    }

    /** get_pending_applications: exactly the rows still pending. */
    function GetPendingApplications(): (r: seq<ApplicationRow>)
      reads this
      ensures forall i :: 0 <= i < |r| ==> r[i] in applications && r[i].status == Pending
      ensures forall i :: 0 <= i < |applications| && applications[i].status == Pending ==> applications[i] in r
    {
      Select(applications, Pending)
    }

    /** get_pending_reports: exactly the rows still pending. */
    function GetPendingReports(): (r: seq<ReportRow>)
      reads this
      ensures forall i :: 0 <= i < |r| ==> r[i] in reports && r[i].status == Pending
      ensures forall i :: 0 <= i < |reports| && reports[i].status == Pending ==> reports[i] in r
    {
      Select(reports, Pending)
    }

    /** get_pending_appeals: exactly the rows still pending. */
    function GetPendingAppeals(): (r: seq<AppealRow>)
      reads this
      ensures forall i :: 0 <= i < |r| ==> r[i] in appeals && r[i].status == Pending
      ensures forall i :: 0 <= i < |appeals| && appeals[i].status == Pending ==> appeals[i] in r
    {
      Select(appeals, Pending)
    }

    /** update_application_status. */
    method UpdateApplicationStatus(id: int, status: Status, notes: Option<string>)
      requires Valid()
      modifies this`applications
      ensures Valid()
      ensures applications == SetStatus(old(applications), id, status, notes)
    {
      SetStatusKeepsPositional(applications, id, status, notes);
      applications := SetStatus(applications, id, status, notes);
    }

    /** update_report_status. */
    method UpdateReportStatus(id: int, status: Status, notes: Option<string>)
      requires Valid()
      modifies this`reports
      ensures Valid()
      ensures reports == SetStatus(old(reports), id, status, notes)
    {
      SetStatusKeepsPositional(reports, id, status, notes);
      reports := SetStatus(reports, id, status, notes);
    }

    /** update_appeal_status. */
    method UpdateAppealStatus(id: int, status: Status, notes: Option<string>)
      requires Valid()
      modifies this`appeals
      ensures Valid()
      ensures appeals == SetStatus(old(appeals), id, status, notes)
    {
      SetStatusKeepsPositional(appeals, id, status, notes);
      appeals := SetStatus(appeals, id, status, notes);
    }

    // ---- info requests ------------------------------------------------

    /** add_info_request: a new 'pending' request without a response; 0 when the insert failed. */
    method AddInfoRequest(kind: Kind, submissionId: int, userId: int, adminId: int, text: string, storeOk: bool)
      returns (id: int)
      requires Valid()
      modifies this`infoRequests
      ensures Valid()
      ensures id >= 0 && (id > 0 <==> storeOk)
      ensures id > 0 ==> id == NextId(old(infoRequests)) && infoRequests == Insert(old(infoRequests),
                           InfoData(kind, submissionId, userId, adminId, text, None, None), Waiting)
      ensures id == 0 ==> infoRequests == old(infoRequests)
    {
      if storeOk {
        var data := InfoData(kind, submissionId, userId, adminId, text, None, None);
        id := NextId(infoRequests);
        InsertKeepsPositional(infoRequests, data, Waiting);
        infoRequests := Insert(infoRequests, data, Waiting);
      } else {
        id := 0;
      }
    }

    /** get_info_request_by_id: found exactly for the ids handed out so far. */
    function GetInfoRequest(id: int): (r: Option<InfoRow>)
      requires Valid()
      reads this
      ensures r.Some? <==> 1 <= id <= |infoRequests|
      ensures r.Some? ==> r.value == infoRequests[id - 1]
    {
      FindPositional(infoRequests, id);
      Find(infoRequests, id)
    }

    /** get_active_info_request: the user's pending request (of the type, if given) with the highest id. */
    function GetActiveInfoRequest(userId: int, kind: Option<Kind>): (r: Option<InfoRow>)
      reads this
      ensures r.Some? ==> r.value in infoRequests && WaitingFor(r.value, userId, kind)
      ensures r.Some? ==> forall i :: 0 <= i < |infoRequests| && WaitingFor(infoRequests[i], userId, kind) ==>
                            infoRequests[i].id <= r.value.id
      ensures r.None? ==> forall i :: 0 <= i < |infoRequests| ==> !WaitingFor(infoRequests[i], userId, kind)
    {
      LatestWaiting(infoRequests, userId, kind)
    }

    /** get_info_request_by_type_id: a pending request about that submission, if there is one. */
    function GetInfoRequestByTypeId(kind: Kind, submissionId: int): (r: Option<InfoRow>)
      reads this
      ensures r.Some? ==> r.value in infoRequests && r.value.data.requestType == kind
                          && r.value.data.submissionId == submissionId && r.value.status == Waiting
      ensures r.None? ==> forall i :: 0 <= i < |infoRequests| ==>
        !(infoRequests[i].data.requestType == kind && infoRequests[i].data.submissionId == submissionId
          && infoRequests[i].status == Waiting)
    {
      FirstWaitingFor(infoRequests, kind, submissionId)
    }

    /** update_info_request_response. */
    method UpdateInfoRequestResponse(id: int, text: string, files: string)
      requires Valid()
      modifies this`infoRequests
      ensures Valid()
      ensures infoRequests == Answer(old(infoRequests), id, text, files)
    {
      infoRequests := Answer(infoRequests, id, text, files);
    }
  }
}
