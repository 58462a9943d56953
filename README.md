# E-learning portal: a Dafny model of its core

The portal is a Django application where teachers run courses, students
enrol in course offerings that belong to academic terms, and teachers leave
feedback. An instructor can open a live Q&A session for a course. Students
join its room over a WebSocket and post questions. The session ends with a
system close comment that is broadcast to the room.

This project models the following parts, one Dafny module per source file:

- the data records and their validation rules (`Models`, `Validators`);
- the repositories that query and update them: `QASessions`,
  `QAQuestions`, `AcademicTerms`, `Enrollments`, `CourseOfferings`,
  `FeedbackRepo`, `Courses`, `Users` and `Notifications`;
- the Q&A session views (`QAViews`);
- the background tasks (`Tasks`);
- the REST serializers (`Serializers`) and the API permission
  (`ApiPermissions`);
- the unread-notification context processor (`Notifications`);
- the term calendar of the test utilities (`TermCalendar`);
- the browser-side WebSocket client of the session page (`WsClient`).

A few helper modules hold what is shared:

- `Wrappers` holds `Option` and `Result`.
- `Text` covers whitespace splitting, stripping and case-insensitive
  substring search.
- `Dates` covers calendar dates and adding years.
- `Seqs` covers the query shapes `filter`, `first`, `order_by(...).first()`
  and `order_by("-key")` over a table held as a sequence in primary-key
  order.
- `KeywordQuery` is the OR-of-`icontains` query built from search keywords.

The model's data layout:

- Rows are datatypes.
- A related row is its primary key, or the row itself where the source
  joins it in.
- Tables that the source changes in place are classes: `SessionRegistry`,
  `QuestionLog`, `NotificationTable`, `UserStore`, `CourseTable`,
  `OfferingTable`, `FeedbackTable`, `TaskQueue` and `WebSocketClient`.
  Their methods are tied to pure functions, and the lemmas are stated
  about those functions.

Two behaviours of the source a reader might not expect:

- Ending a Q&A session that has already ended is not an error.
  `qa_session_repository.py:40-45` only looks the session up and sets it
  to ENDED. `QASessions.EndSession` therefore succeeds on an ended session
  and leaves it ended.
- The fall-back of `get_full_name` for a user without a type is the
  username. That is what `AbstractUser.__str__` returns.

## Model

| member | source | states |
|---|---|---|
| QASessions.Fetch | userportal/repositories/qa_session_repository.py:11-13 | the course's session is found exactly when the course has one, and it is that session |
| QASessions.StartOrReactivate | userportal/repositories/qa_session_repository.py:16-37 | exactly one of created / already available / room to delete holds, by whether the course has no session, an active one or an ended one; the room to delete is the old room; afterwards the course's session is active, under the fresh name unless it was already active, and no other course's session changes |
| QASessions.EndSession | userportal/repositories/qa_session_repository.py:40-45 | not found exactly when the course has no session; otherwise that session with status ENDED, and only it changes |
| QASessions.StartTwice | userportal/repositories/qa_session_repository.py:28-31 | a second start right after any start reports already_available and changes nothing |
| QASessions.EndThenStart | userportal/repositories/qa_session_repository.py:33-45 | ending and then starting reactivates the session under the new name and hands back the old room name |
| QASessions.StartKeepsRoomsApart | userportal/repositories/qa_session_repository.py:16-37 | with a name no room uses, a start keeps room names distinct across courses, and the room handed back for purging is no longer any session's room |
| QASessions.SessionRegistry.GetCreateOrReactivate | userportal/repositories/qa_session_repository.py:16-37 | the registry's new state and answer are those of `StartOrReactivate`; room names stay distinct; the purged room is no longer used |
| QASessions.SessionRegistry.End | userportal/repositories/qa_session_repository.py:40-45 | not found, with nothing changed, exactly when the course has no session; otherwise the state of `EndSession` |
| QAQuestions.RoomQuestions | userportal/views/qa_session_views.py:84-88 | exactly the log's questions of that room, each as often as it is stored |
| QAQuestions.Purge | elearning/userportal/tests/test_tasks.py:13-31 | no question of the purged room remains |
| QAQuestions.PurgeEmptiesRoom | elearning/userportal/tests/test_tasks.py:13-31 | after a purge the room has no questions |
| QAQuestions.PurgeKeepsOtherQuestions | elearning/userportal/tests/test_tasks.py:13-31 | every question of another room is kept, as often as before |
| QAQuestions.PurgeKeepsOtherRooms | elearning/userportal/tests/test_tasks.py:13-31 | every other room's question list is unchanged, in order |
| QAQuestions.QuestionLog.CreateAndSaveCloseComment | userportal/repositories/qa_question_repository.py:9-18 | appends exactly one system close comment, in the session's room and stamped now, and changes nothing else |
| QAQuestions.QuestionLog.DeleteQuestions | elearning/userportal/tests/test_tasks.py:13-31 | the log becomes `Purge` of the old log |
| QAViews.FollowUpTasks | userportal/views/qa_session_views.py:37-47 | students are notified iff a session was created or a non-empty stale room came back; exactly that room is purged, and the notification comes first |
| QAViews.FollowUpOfRegistry | userportal/views/qa_session_views.py:29-47 | on the registry's answers no task is scheduled iff the session was already active; a reactivation notifies and purges the old room; a creation only notifies |
| QAViews.StartQASession | userportal/views/qa_session_views.py:20-48 | 404 for an unknown course; a redirect with the refusal or error message and nothing changed when permission is missing or the registry raises; otherwise the registry state of `StartOrReactivate`, the follow-up tasks enqueued, and the "already active" message only when it was |
| QAViews.RoomGroup | userportal/views/qa_session_views.py:122-135 | the group name is the Q&A prefix, an underscore, then the room name |
| QAViews.RoomGroupInjective | userportal/views/qa_session_views.py:122-135 | different rooms have different groups |
| QAViews.CloseMessage | userportal/views/qa_session_views.py:122-135 | the close event goes to the room's group and carries the comment's text, sender and timestamp |
| QAViews.EndQASession | userportal/views/qa_session_views.py:95-119 | the session is ended and the close comment saved together, or neither (missing session, or the comment save raising, rolls back); the event is broadcast exactly when both happened; the redirect and message for each outcome |
| QAViews.ViewAccess | userportal/views/qa_session_views.py:63-70 | `CanViewSession` refuses anonymous users, admits authenticated admins and authenticated users active in the course, and refuses users who are neither |
| QAViews.TaskQueue.Delay | userportal/views/qa_session_views.py:37-47 | each `.delay` call appends its task, in call order |
| QAViews.SessionPageContext | userportal/views/qa_session_views.py:72-90 | not found exactly without a session; a teacher without a teacher profile fails; is_instructor iff the viewer teaches the course; questions are shown exactly when the session has ended, and they are `RoomQuestions` of the session's room |
| AcademicTerms.Current | userportal/repositories/academic_term_repository.py:12-16 | a stored term containing now, or none exactly when no term contains now |
| AcademicTerms.Next | userportal/repositories/academic_term_repository.py:19-25 | the stored term with the earliest start after now, or none exactly when none starts after now |
| AcademicTerms.Previous | userportal/repositories/academic_term_repository.py:28-34 | the stored term with the latest end before now, or none exactly when none ends before now |
| AcademicTerms.ConsecutiveTerms | userportal/tests/test_repositories.py:20-23 | for three consecutive terms around now: current, next and previous are those terms |
| Tasks.Compose | elearning/userportal/tasks.py:20-32 | one unread notification per user, in order, with consecutive ids, the same message and link, stamped now |
| Tasks.MarkRead | elearning/userportal/tasks.py:36-40 | exactly the rows with a listed id become read; everything else is unchanged |
| Tasks.MarkReadIdempotent | elearning/userportal/tasks.py:36-40 | marking the same ids twice is marking them once |
| Tasks.MarkReadMonotone | elearning/userportal/tests/test_tasks.py:33-49 | a row is read afterwards iff it was read or is listed, and the unread count never grows |
| Tasks.NotificationTable.SendNotifications | elearning/userportal/tasks.py:20-32 | the table gains exactly the composed rows, at the end |
| Tasks.NotificationTable.MarkNotificationsAsRead | elearning/userportal/tasks.py:36-40 | the table becomes `MarkRead` of the old table |
| Tasks.EnrolledStudentUsers | elearning/userportal/tasks.py:6-17 | nobody when no term is current; otherwise exactly the users of the student profiles enrolled in an offering of the course in the current term, each listed once per such profile |
| Tasks.UsersOfCount | elearning/userportal/tasks.py:16 | a user occurs among the profiles' users once per profile of theirs |
| Tasks.CreateNotificationsForEnrolledStudents | elearning/userportal/tasks.py:6-17 | notifies exactly `EnrolledStudentUsers` |
| Enrollments.Fetch | userportal/repositories/enrollment_repository.py:17-36 | the student's enrollments split by term status into not started, in progress and finished, each in stored order |
| Enrollments.FetchPartitions | userportal/repositories/enrollment_repository.py:17-36 | the three lists together hold each of the student's enrollments exactly once |
| Enrollments.FetchOnlyOwn | userportal/repositories/enrollment_repository.py:17-36 | every listed enrollment is a stored one of that student |
| Enrollments.IsEnrolled | userportal/repositories/enrollment_repository.py:39-43 | true iff some enrollment links the student to the offering |
| Enrollments.HasFinishedCourse | userportal/repositories/enrollment_repository.py:46-53 | true iff the student has an enrollment in an offering of the course whose term ended before now |
| Enrollments.FetchWithStudent | userportal/repositories/enrollment_repository.py:56-62 | exactly the offering's enrollments, newest enrollment first |
| Enrollments.LatestGrade | userportal/repositories/enrollment_repository.py:65-75 | none iff the student has not finished the course; otherwise the grade of a finished enrollment whose term ended last |
| Enrollments.LatestGradeIsLastTerm | userportal/repositories/enrollment_repository.py:65-75 | when one finished enrollment ended strictly last, its grade is the one reported |
| CourseOfferings.FetchCurrent | elearning/userportal/repositories/course_offering_repository.py:12-19 | an offering of the course in the current term; none exactly when no term is current or the course has no offering in it |
| CourseOfferings.FetchNext | elearning/userportal/repositories/course_offering_repository.py:22-27 | an offering of the course in the next term; none exactly when there is no next term or the course has no offering in it |
| CourseOfferings.FetchCurrentFindsOffering | elearning/userportal/repositories/course_offering_repository.py:12-19 | the course's only offering in the current term is found |
| CourseOfferings.FetchNextFindsOffering | elearning/userportal/repositories/course_offering_repository.py:22-27 | the course's only offering in the next term is found |
| CourseOfferings.FetchWithAcademicTerms | elearning/userportal/repositories/course_offering_repository.py:30-38 | exactly the course's offerings, latest term start first |
| CourseOfferings.ThreeTermsNewestFirst | elearning/userportal/repositories/course_offering_repository.py:30-38 | three offerings come back as next, current, previous |
| CourseOfferings.OfferingTable.Create | elearning/userportal/repositories/course_offering_repository.py:41-46 | one new offering of the course in the form's term, appended |
| FeedbackRepo.Fetch | elearning/userportal/repositories/feedback_repository.py:14-16 | the student's feedback on the course, or none exactly when there is none |
| FeedbackRepo.GradeDisplay | elearning/userportal/repositories/feedback_repository.py:36-40 | "Pass" iff the grade is pass, "Fail" iff it is fail, "Not Graded" otherwise |
| FeedbackRepo.CourseFeedback | elearning/userportal/repositories/feedback_repository.py:28-44 | a permutation of the course's feedback (same multiset), most recently updated first |
| FeedbackRepo.FetchWithStudentGrade | elearning/userportal/repositories/feedback_repository.py:28-44 | each of the course's feedback rows, in that order, annotated with the student's latest grade and its label |
| FeedbackRepo.FetchWithStudentGradeRows | elearning/userportal/repositories/feedback_repository.py:28-44 | the feedback column of the annotated rows is a permutation of the course's feedback rows (same multiset), each present, most recently updated first |
| FeedbackRepo.GradeShownIsLatest | elearning/userportal/repositories/feedback_repository.py:30-40 | the grade shown is that of the term that ended last |
| FeedbackRepo.FeedbackTable.Create | elearning/userportal/repositories/feedback_repository.py:19-25 | one new feedback row for the student and course with the form's comments, appended |
| KeywordQuery.OrQ | elearning/userportal/repositories/course_repository.py:24-30 | `Q() \| X` is `X`, and otherwise the disjunction |
| KeywordQuery.BuildQuery | elearning/userportal/repositories/course_repository.py:24-30 | empty iff there are no words; otherwise it holds iff some word occurs in some field, ignoring case |
| KeywordQuery.SearchWords | elearning/userportal/repositories/course_repository.py:21-23 | no words iff the keywords are missing, empty or blank; each word is non-empty and has no blank |
| KeywordQuery.MoreWordsNeverShrink | elearning/userportal/repositories/course_repository.py:24-30 | adding words never drops a match |
| Courses.SelectCourses | elearning/userportal/repositories/course_repository.py:11-32 | exactly the rows where some word occurs in the title, description or teacher's names |
| Courses.SelectWithoutWords | elearning/userportal/repositories/course_repository.py:21-32 | without words every course is returned |
| Courses.SelectMoreWords | elearning/userportal/repositories/course_repository.py:24-30 | more words never select fewer courses |
| Courses.FetchFilteredBy | elearning/userportal/repositories/course_repository.py:11-32 | `SelectCourses` over the search words, and all courses when no keywords are given |
| Courses.CourseTable.CreateCourse | elearning/userportal/repositories/course_repository.py:35-40 | one new course with the form's fields and the teacher, appended |
| Users.SelectUsers | elearning/userportal/repositories/user_repository.py:14-34 | no staff or superuser; a user is listed iff it matches a word and, when types are given, its type is listed |
| Users.GetFilteredUsers | elearning/userportal/repositories/user_repository.py:14-34 | `SelectUsers` over the search words |
| Users.Toggle | elearning/userportal/repositories/user_repository.py:37-43 | not found iff no such user; changed iff the status differed; only that user's flag changes |
| Users.ToggleTwice | elearning/userportal/repositories/user_repository.py:37-43 | repeating the same toggle reports no change and changes nothing |
| Users.DeactivateThenActivate | elearning/userportal/repositories/user_repository.py:37-43 | deactivating and reactivating an active user restores the table |
| Users.ToggleUserActiveStatus | elearning/userportal/repositories/user_repository.py:37-43 | the store becomes the table of `Toggle`, and profiles are untouched |
| Users.SetProfileStatus | elearning/userportal/repositories/user_repository.py:46-50 | not found iff the user has no student profile; a save error iff the expiry date would fall after year 9999; otherwise that profile gets the new status and an expiry six years after registration, and no other profile changes |
| Users.SetProfileStatusTwice | elearning/userportal/repositories/user_repository.py:46-50 | setting the same status again changes nothing |
| Users.UpdateStudentProfileStatus | elearning/userportal/repositories/user_repository.py:46-50 | the profiles become those of `SetProfileStatus`, or are unchanged on either error, which is reported |
| Users.SearchByFirstNameFindsUser | elearning/userportal/repositories/user_repository.py:19-29 | searching for a managed user's one-word first name lists that user |
| Notifications.Fetch | elearning/userportal/repositories/notification_repository.py:13-15 | exactly the user's notifications, newest first |
| Notifications.FetchSingle | elearning/userportal/repositories/notification_repository.py:13-15 | a user with one notification gets exactly that one |
| Notifications.UnreadNotifications | userportal/context_processors.py:6-18 | no count iff anonymous; otherwise the number of positions holding an unread notification of the user, which is no larger than the number of the user's notifications |
| Notifications.CountsUnreadPositions | userportal/context_processors.py:17-18 | the filtered count equals the number of the user's unread rows |
| Notifications.UnreadCountStep | userportal/context_processors.py:17-18 | one more unread notification of the user raises the count by one; any other new row leaves it as it was |
| Notifications.UnreadWithinTotal | userportal/context_processors.py:17-18 | unread notifications never outnumber the user's notifications |
| Notifications.OtherUsersIgnored | userportal/context_processors.py:17-18 | other users' notifications do not change the count |
| Notifications.AllReadCountsZero | userportal/context_processors.py:17-18 | with all of the user's notifications read, the count is zero |
| Models.TeacherStudentExclusive | elearning/userportal/models.py:72-76 | `IsTeacher` and `IsStudent` never both hold, and either one implies a (truthy) user type |
| Models.GetFullName | elearning/userportal/models.py:78-83 | the username for a user without a type; otherwise a name with no surrounding blanks |
| Models.FullNameWithTitle | elearning/userportal/models.py:78-83 | with a title: title, first and last name separated by blanks |
| Models.FullNameWithoutTitle | elearning/userportal/models.py:78-83 | without a title: first and last name, the leading blank stripped |
| Models.RequiredFieldErrors | elearning/userportal/models.py:21-42 | a "required" error for exactly each missing or empty field among email, first name, last name and user type, so no error at all exactly when all four are given |
| Models.NormalizeEmail | elearning/userportal/models.py:47 | a missing email becomes the empty text |
| Models.NormalizeEmailWithoutAt | elearning/userportal/models.py:47 | an email without "@" is kept exactly as given, surrounding blanks included |
| Models.NormalizeEmailDomain | elearning/userportal/models.py:47 | a trimmed email keeps its local part and gets its domain (after the last "@") lower-cased |
| Models.NormalizeEmailIdempotent | elearning/userportal/models.py:47 | normalizing twice is normalizing once |
| Models.AddUserKeepsEmailsUnique | elearning/userportal/models.py:63 | adding a user whose email nobody has keeps emails unique |
| Models.UserStore.SaveNewUser | elearning/userportal/models.py:47 | a user with a new username, the next id and an unused email is stored under its username, the id counter advances, and usernames and emails stay unique |
| Models.UserStore.CreateUser | elearning/userportal/models.py:21-47 | all missing required fields are reported together; then an empty username, a taken username or a taken (normalized) email is refused, each exactly in its case; otherwise the user is created active, not staff, with the next id and the normalized email; nothing changes on any error, and usernames and emails stay unique |
| Models.SaveStudentProfile | elearning/userportal/models.py:97-99 | an error iff registration year plus six is after 9999; otherwise the expiry date is the registration date plus six years, and nothing else changes |
| Models.SaveStudentProfileExpiry | elearning/userportal/models.py:97-99 | for registrations up to 9993 the save succeeds: same month six years on; a 29 February registration expires on 28 February; saving twice is saving once |
| Models.CleanTerm | elearning/userportal/models.py:133-143 | an invalid-start error iff the term starts after it ends |
| Validators.RegistrationDateValidator | elearning/userportal/validators.py:8-17 | any error is the "invalid" code with the offending date |
| Validators.RegistrationDateBoundary | elearning/userportal/validators.py:8-17 | a date passes iff it is on or after 1 January 2020 |
| TermCalendar.GetCurrentTerm | elearning/userportal/tests/utils.py:5-42 | Fall of the previous year for January to March, Spring for April to September, Fall of the year for October to December; an error for years 1 and 9999 |
| TermCalendar.CurrentTermContainsToday | elearning/userportal/tests/utils.py:5-42 | the term contains the date and starts before it ends |
| TermCalendar.TermsFollowEachOther | elearning/userportal/tests/utils.py:22-42 | Spring follows Fall and Fall follows Spring |
| ApiPermissions.PermissionCases | elearning/userportal/api_permissions.py:9-13 | `HasPermission` refuses anonymous users, admits the teacher group, staff and superusers, and refuses everyone else |
| ApiPermissions.UserTypeIsNotTheGroup | elearning/userportal/api_permissions.py:9-13 | a teacher-typed user outside the teacher group is refused |
| Serializers.WritableFields | userportal/serializers.py:11-57 | exactly the declared fields that are not read-only |
| Serializers.WritableProfileFields | userportal/serializers.py:11-57 | the program is read-only; only the status of a student profile and the biography of a teacher profile are writable |
| Serializers.AssignedKeeps | userportal/serializers.py:51-57 | read-only and unsent fields keep their values |
| Serializers.AssignedTakesLastWrite | userportal/serializers.py:51-57 | a writable field takes the last value sent for it |
| Serializers.UpdateInstance | userportal/serializers.py:28-34 | the instance after the assignment loop is `Assigned` |
| Serializers.TeacherProfileUpdate | userportal/serializers.py:28-34 | every sent key is assigned, the teacher profile having no read-only field |
| Serializers.SaveStudentInstance | elearning/userportal/models.py:97-99 | an error iff the registration year plus six is after 9999; otherwise only the expiry date changes, to six years after registration |
| Serializers.SaveStudentInstanceAgrees | elearning/userportal/models.py:97-99 | the attribute-level save and `Models.SaveStudentProfile` fail together with the same error and otherwise store the same expiry date |
| Serializers.StudentUpdated | userportal/serializers.py:51-57 | a save error iff the registration year plus six is after 9999; otherwise the writable keys assigned and the expiry date recomputed from the registration date |
| Serializers.StudentProfileUpdate | userportal/serializers.py:51-57 | the outcome of `StudentUpdated`: read-only keys skipped, then the profile saved |
| Serializers.StudentUpdateKeepsRegistration | userportal/serializers.py:45-57 | a saved update never changes the program or the registration date, and its expiry date is six years after registration whatever was sent |
| Serializers.TeacherUpdateSetsBiography | userportal/serializers.py:28-34 | sending a biography sets exactly the biography |
| Serializers.GetUserTypeDisplay | userportal/serializers.py:82-84 | none iff the user has no type; "Teacher" or "Student" by type |
| Serializers.ToRepresentation | userportal/serializers.py:86-97 | the user fields plus, by type, the teacher's biography or the student's status, program, registration and expiry dates; a missing profile raises |
| Serializers.ToInternalValue | userportal/serializers.py:99-110 | the profile is carried over iff it is sent and truthy; other fields are unchanged |
| Serializers.UpdateProfileSerializerFor | userportal/serializers.py:112-122 | the teacher serializer iff teacher, the student one iff student, none otherwise |
| Serializers.UserUpdateIgnoresProfile | userportal/serializers.py:127-129 | the user row never receives a profile field |
| Serializers.CleanUser | userportal/serializers.py:130 | the email attribute becomes the normalized email, or the empty text when null; every other attribute is kept |
| Serializers.CleanUserIdempotent | userportal/serializers.py:130 | cleaning twice is cleaning once |
| Serializers.UpdateUserProfile | userportal/serializers.py:124-138 | the user's fields are assigned and cleaned; the matching profile's writable fields are updated (and a student profile saved) only when truthy profile data is sent; each error (user save, missing profile, invalid profile data, student profile save) is reported exactly in its case and no updated rows are returned (the transaction rolls back) |
| WsClient.AddToSetTwice | elearning/userportal/static/userportal/js/active_qa_session.js:64-69 | adding a handler twice is adding it once |
| WsClient.InvocationsOncePerHandler | elearning/userportal/static/userportal/js/active_qa_session.js:71-76 | no handler is called twice for one event |
| WsClient.ChooseSender | elearning/userportal/static/userportal/js/active_qa_session.js:143-153 | the empty sender iff the anonymous box exists and is checked, else the user's name |
| WsClient.WebSocketClient.constructor | elearning/userportal/static/userportal/js/active_qa_session.js:6-12 | no socket, the full retry budget, the three-second reconnect interval, no handlers |
| WsClient.WebSocketClient.Connect | elearning/userportal/static/userportal/js/active_qa_session.js:14-15 | a new connecting socket; nothing else changes |
| WsClient.WebSocketClient.SocketOpened | elearning/userportal/static/userportal/js/active_qa_session.js:16-20 | open, retry budget restored, the open handlers run |
| WsClient.WebSocketClient.SocketClosed | elearning/userportal/static/userportal/js/active_qa_session.js:21-30 | a reconnect is scheduled iff the code is not the terminate code, the close was not clean and retries remain |
| WsClient.WebSocketClient.Reconnect | elearning/userportal/static/userportal/js/active_qa_session.js:41-51 | a timer of `autoReconnectInterval` (three seconds) is set iff retries remain |
| WsClient.WebSocketClient.TimerFired | elearning/userportal/static/userportal/js/active_qa_session.js:43-47 | connects again and spends one retry; never more than two attempts since the last open |
| WsClient.WebSocketClient.Send | elearning/userportal/static/userportal/js/active_qa_session.js:53-62 | a frame is sent iff the socket is open |
| WsClient.WebSocketClient.AddHandler | elearning/userportal/static/userportal/js/active_qa_session.js:64-69 | the handler joins the event's set; nothing else changes |
| WsClient.WebSocketClient.TriggerHandler | elearning/userportal/static/userportal/js/active_qa_session.js:71-76 | each of the event's handlers is called once, in insertion order, with the data; an unknown event calls none |
| WsClient.WebSocketClient.SocketMessage | elearning/userportal/static/userportal/js/active_qa_session.js:34-38 | the message handlers run with the data |
| WsClient.SendMessage | elearning/userportal/static/userportal/js/active_qa_session.js:143-153 | sends the message under `ChooseSender`'s sender, only when open |

## Left out

- `generate_unique_room_name` is a parameter (`freshName`) that must not have been issued before. The randomness behind it is not modelled.
- The constants module is not part of this model. `LIVE_QA_PREFIX`, `LIVE_QA_END_SESSION_MSG` and `MESSAGE_TYPE_CLOSE` carry placeholder values.
- An academic term's status (not started, in progress, finished) is a stored field. How it is derived from the dates is not part of this model.
- The permission checks (`can_manage_qa_session`, `is_admin`, `is_active_in_course`) are boolean parameters. Their code is not part of this model.
- Exceptions raised by the database or by code not shown are boolean parameters: `registryRaises`, `commentSaveRaises`, `saveRaises`, `profileInvalid`.
- Serializers.UpdateUserProfile: works on field maps passed as values, so updating a shared instance in place (aliasing) is not modelled.
- Models.UserStore.CreateUser: when both the username and the email are taken, the model reports the username. The database decides which unique constraint fails first.
- Models.UserStore.CreateUser: the Unicode (NFKC) normalization of the username and the password hashing are not modelled. Case folding in `NormalizeEmail` covers ASCII letters only.
- The Django `normalize_email`, `_create_user` and `AbstractUser.clean` code is not part of this model. `Models.NormalizeEmail` and the email step of `Serializers.CleanUser` follow Django's documented behaviour.
- Serializers.CleanUser / Serializers.UpdateUserProfile: `AbstractBaseUser.clean` also resets the username to its Unicode (NFKC) normal form. The model keeps the username unchanged, since Unicode normalization is not modelled. A username created through `create_user` is already in that form.
- Serializers.UpdateUserProfile: whether the user's `save` violates a unique column is the parameter `saveRaises`.
- `tasks.py:14` calls `AcademicTerm.current()`, but the `AcademicTerm` class in `models.py:120-146` defines no `current()`, so the task as written raises AttributeError before anyone is notified. `Tasks.EnrolledStudentUsers` and `Tasks.CreateNotificationsForEnrolledStudents` assume the evidently intended lookup, `AcademicTerms.Current`.
- A newly created Q&A session's room name is `freshName`. The model field's default is not part of this model.
- A student's program is its id. The nested `ProgramSerializer` output is not modelled.
- Tasks.EnrolledStudentUsers: lists each user once per matching profile. The extra rows a join over several matching enrollments can produce are not modelled.
- Case-insensitive matching folds ASCII letters only.
- `order_by` keeps ties in stored order. Django leaves their order unspecified.
- The channel-layer send of the close event is a returned value. The event is not delivered to any socket.
- Celery `.delay` appends the task to a queue. Running the task later is a separate call in the model.
- Tasks.Compose: a notification is unread and stamped `now` when created. The Notification model definition is not part of this model, so these defaults are assumed.
- A Q&A session counts as active when its status is ACTIVE.
- `get_term_datetimes` and the WebSocket consumers are not part of this model.
- The definitions of the `delete_qa_questions` and `notify_students_of_live_qa_start` tasks are not part of this model. `QAQuestions.Purge` follows what the task's test expects. The notify task is taken to call `create_notifications_for_enrolled_students`.
- WsClient.WebSocketClient.SocketOpened: the `onerror` logging and the JSON parsing of messages are not modelled. A message's data is passed already parsed.
- The page rendering, flash-message storage and HTTP layer are left out. A view's response is a value naming the page and its messages.
