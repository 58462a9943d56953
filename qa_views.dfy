/**
 * The decisions of the Q&A session views: which follow-up tasks a start
 * schedules, how ending a session and writing its close comment happen as one
 * transaction, the close event broadcast to the room afterwards, and who may
 * see a session page and what it shows.
 */
module QAViews {
  import opened Wrappers
  import opened Seqs
  import opened Models
  import opened QASessions
  import opened QAQuestions

  /** Channel-layer group prefix of live Q&A rooms (`LIVE_QA_PREFIX`). */
  const LIVE_QA_PREFIX: string := "live_qa"
  /** Event type of the close broadcast (`MESSAGE_TYPE_CLOSE`). */
  const MESSAGE_TYPE_CLOSE: string := "close.connection"

  /** A background task handed to the queue with `.delay`. */
  datatype Task = NotifyStudents(course: nat) | DeleteQuestions(roomName: string)

  /** The flash messages the views add. */
  datatype Flash = OnlyAuthorizedCanManage | UnexpectedError | SessionAlreadyActive | FailedToEnd | SessionEndSuccess

  datatype Page = CourseDetail(course: nat) | QASessionPage(course: nat)

  datatype Response = NotFoundPage | Redirect(page: Page, flashes: seq<Flash>)

  /** The event `_send_close_message` sends to the room's group. */
  datatype CloseEvent = CloseEvent(group: string, eventType: string, message: string, sender: string, timestamp: int)

  /** The queue the views enqueue background tasks on. */
  class TaskQueue {
    var scheduled: seq<Task>

    constructor ()
      ensures scheduled == []
    {
      scheduled := [];
    }

    method Delay(t: Task)
      modifies this
      ensures scheduled == old(scheduled) + [t]
    {
      scheduled := scheduled + [t];
    }
  }

  /** Python truthiness of `room_name_to_be_deleted`: present and not empty. */
  predicate HasStaleRoom(r: StartResult) {
    r.roomNameToBeDeleted.Some? && r.roomNameToBeDeleted.value != ""
  }

  /**
   * The tasks `start_qa_session` schedules after the registry answered `r`:
   * students are notified when a session was created or a stale room came
   * back, and exactly that stale room is purged, notification first.
   */
  function FollowUpTasks(course: nat, r: StartResult): (tasks: seq<Task>)
    ensures NotifyStudents(course) in tasks <==> r.created || HasStaleRoom(r)
    ensures forall room :: DeleteQuestions(room) in tasks <==> HasStaleRoom(r) && room == r.roomNameToBeDeleted.value
    ensures forall i :: 0 <= i < |tasks| ==> tasks[i] == NotifyStudents(course) || tasks[i].DeleteQuestions?
    ensures |tasks| <= 2 && (|tasks| == 2 ==> tasks[0].NotifyStudents? && tasks[1].DeleteQuestions?)
  {
    (if r.created || HasStaleRoom(r) then [NotifyStudents(course)] else [])
    + (if HasStaleRoom(r) then [DeleteQuestions(r.roomNameToBeDeleted.value)] else [])
  }

  /** On the registry's own answers the room name is never empty, so the purge follows exactly a reactivation. */
  lemma FollowUpOfRegistry(sessions: Sessions, course: nat, freshName: string)
    requires KeyedByCourse(sessions)
    requires forall c :: c in sessions ==> sessions[c].roomName != ""
    ensures var r := StartOrReactivate(sessions, course, freshName).0;
      && (FollowUpTasks(course, r) == [] <==> r.alreadyAvailable)
      && (r.roomNameToBeDeleted.Some? ==>
            FollowUpTasks(course, r) == [NotifyStudents(course), DeleteQuestions(sessions[course].roomName)])
      && (r.created ==> FollowUpTasks(course, r) == [NotifyStudents(course)])
  {
  }

  /**
   * `start_qa_session`. `canManage` is the permission check's answer,
   * `registryRaises` says that the repository call raised, and `freshName` is
   * the generated room name.
   */
  method StartQASession(registry: SessionRegistry, queue: TaskQueue, course: nat, courseExists: bool,
                        canManage: bool, registryRaises: bool, freshName: string)
    returns (resp: Response)
    requires registry.Valid() && freshName !in registry.issued && freshName != ""
    modifies registry, queue
    ensures registry.Valid()
    ensures !courseExists ==> resp == NotFoundPage
    ensures courseExists && !canManage ==> resp == Redirect(CourseDetail(course), [OnlyAuthorizedCanManage])
    ensures courseExists && canManage && registryRaises ==> resp == Redirect(CourseDetail(course), [UnexpectedError])
    ensures !(courseExists && canManage && !registryRaises) ==>
      registry.sessions == old(registry.sessions) && queue.scheduled == old(queue.scheduled)
    ensures courseExists && canManage && !registryRaises ==>
      var (r, after) := StartOrReactivate(old(registry.sessions), course, freshName);
      && registry.sessions == after
      && queue.scheduled == old(queue.scheduled) + FollowUpTasks(course, r)
      && resp == Redirect(QASessionPage(course), if r.alreadyAvailable then [SessionAlreadyActive] else [])
  {
    if !courseExists {
      return NotFoundPage;
    }
    if !canManage {
      return Redirect(CourseDetail(course), [OnlyAuthorizedCanManage]);
    }
    if registryRaises {
      return Redirect(CourseDetail(course), [UnexpectedError]);
    }
    var r := registry.GetCreateOrReactivate(course, freshName);
    if r.created || HasStaleRoom(r) {
      queue.Delay(NotifyStudents(course));
    }
    var flashes := [];
    if r.alreadyAvailable {
      flashes := [SessionAlreadyActive];
    }
    if HasStaleRoom(r) {
      queue.Delay(DeleteQuestions(r.roomNameToBeDeleted.value));
    }
    resp := Redirect(QASessionPage(course), flashes);
  }

  /** The group a room's events go to. */
  function RoomGroup(roomName: string): (g: string)
    ensures |g| > |LIVE_QA_PREFIX| && g[..|LIVE_QA_PREFIX|] == LIVE_QA_PREFIX && g[|LIVE_QA_PREFIX|] == '_'
  {
    LIVE_QA_PREFIX + "_" + roomName
  }

  /** Different rooms have different groups, so a close event reaches one room only. */
  lemma {:induction false} RoomGroupInjective(a: string, b: string)
    requires RoomGroup(a) == RoomGroup(b)
    ensures a == b
  {
    var n := |LIVE_QA_PREFIX| + 1;
    assert RoomGroup(a)[n..] == a;
    assert RoomGroup(b)[n..] == b;
  }

  /** `_send_close_message`: the event sent for a close comment. */
  function CloseMessage(comment: QAQuestion): (e: CloseEvent)
    ensures e.group == RoomGroup(comment.roomName) && e.eventType == MESSAGE_TYPE_CLOSE
    ensures e.message == comment.text && e.sender == comment.sender && e.timestamp == comment.timestamp
  {
    CloseEvent(RoomGroup(comment.roomName), MESSAGE_TYPE_CLOSE, comment.text, comment.sender, comment.timestamp)
  }

  /**
   * `end_qa_session` with `_end_session_and_create_comment` in one
   * transaction. `commentSaveRaises` says that saving the close comment
   * raised, which rolls the status change back. The close event is returned
   * when it is broadcast.
   */
  method EndQASession(registry: SessionRegistry, log: QuestionLog, course: nat, courseExists: bool,
                      canManage: bool, commentSaveRaises: bool, now: int)
    returns (resp: Response, broadcast: Option<CloseEvent>)
    requires registry.Valid()
    modifies registry, log
    ensures registry.Valid() && registry.issued == old(registry.issued)
    ensures !courseExists ==> resp == NotFoundPage
    ensures courseExists && !canManage ==> resp == Redirect(CourseDetail(course), [OnlyAuthorizedCanManage])
    ensures var done := courseExists && canManage && course in old(registry.sessions) && !commentSaveRaises;
      && (broadcast.Some? <==> done)
      && (!done ==> registry.sessions == old(registry.sessions) && log.questions == old(log.questions))
      && (courseExists && canManage && !done ==> resp == Redirect(QASessionPage(course), [FailedToEnd]))
      && (done ==>
          var ended := old(registry.sessions)[course].(status := Ended);
          var comment := QAQuestion(ended.roomName, LIVE_QA_END_SESSION_MSG, SYSTEM_SENDER, now);
          && EndSession(old(registry.sessions), course) == Ok((ended, registry.sessions))
          && log.questions == old(log.questions) + [comment]
          && broadcast == Some(CloseMessage(comment))
          && resp == Redirect(CourseDetail(course), [SessionEndSuccess]))
  {
    broadcast := None;
    if !courseExists {
      return NotFoundPage, None;
    }
    if !canManage {
      return Redirect(CourseDetail(course), [OnlyAuthorizedCanManage]), None;
    }
    var before := registry.sessions;
    var ended := registry.End(course);
    if ended.Err? {
      return Redirect(QASessionPage(course), [FailedToEnd]), None;
    }
    if commentSaveRaises {
      registry.sessions := before;  // the transaction rolls back
      return Redirect(QASessionPage(course), [FailedToEnd]), None;
    }
    var comment := log.CreateAndSaveCloseComment(ended.value, now);
    broadcast := Some(CloseMessage(comment));
    resp := Redirect(CourseDetail(course), [SessionEndSuccess]);
  }

  /** `QASessionView.test_func`: anonymous users are turned away; admins and users active in the course get in. */
  predicate CanViewSession(authenticated: bool, isAdmin: bool, isActiveInCourse: bool) {
    authenticated && (isAdmin || isActiveInCourse)
  }

  lemma ViewAccess(authenticated: bool, isAdmin: bool, isActiveInCourse: bool)
    ensures !authenticated ==> !CanViewSession(authenticated, isAdmin, isActiveInCourse)
    ensures authenticated && isAdmin ==> CanViewSession(authenticated, isAdmin, isActiveInCourse)
    ensures authenticated && isActiveInCourse ==> CanViewSession(authenticated, isAdmin, isActiveInCourse)
    ensures !isAdmin && !isActiveInCourse ==> !CanViewSession(authenticated, isAdmin, isActiveInCourse)
  {
  }

  datatype PageError = SessionNotFound | MissingTeacherProfile

  /** The template context of the session page. */
  datatype SessionContext = SessionContext(course: Course, isInstructor: bool, questions: Option<seq<QAQuestion>>)

  /**
   * `QASessionView.get_object` and `get_context_data`. `teacherProfile` is
   * the id of the viewer's teacher profile, if it has one.
   */
  function SessionPageContext(sessions: Sessions, log: seq<QAQuestion>, course: Course, viewer: PortalUser,
                              teacherProfile: Option<nat>)
    : (r: Result<SessionContext, PageError>)
    ensures r.Err? <==> course.id !in sessions || (IsTeacher(viewer) && teacherProfile.None?)
    ensures r.Ok? ==> r.value.course == course
    ensures r.Ok? ==> (r.value.isInstructor <==> IsTeacher(viewer) && teacherProfile == Some(course.teacher))
    ensures r.Ok? ==> (r.value.questions.Some? <==> sessions[course.id].status == Ended)
    ensures r.Ok? && r.value.questions.Some? ==>
      forall q :: q in r.value.questions.value <==> q in log && q.roomName == sessions[course.id].roomName
    ensures r.Ok? && r.value.questions.Some? ==>
      r.value.questions.value == RoomQuestions(log, sessions[course.id].roomName)
  {
    if course.id !in sessions then Err(SessionNotFound)
    else if IsTeacher(viewer) && teacherProfile.None? then Err(MissingTeacherProfile)
    else
      var session := sessions[course.id];
      var isInstructor := IsTeacher(viewer) && teacherProfile == Some(course.teacher);
      Ok(SessionContext(course, isInstructor,
                        if session.status == Ended then Some(RoomQuestions(log, session.roomName)) else None))
  }
}
