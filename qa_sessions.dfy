/**
 * `QASessionRepository`: the registry holding at most one live Q&A session
 * per course. Starting either creates the course's session, leaves an active
 * one alone, or reactivates an ended one under a freshly generated room name,
 * handing back the old name so that its questions can be purged.
 */
module QASessions {
  import opened Wrappers
  import opened Models

  /** The session table, keyed by course: the lookup key makes a second session per course impossible. */
  type Sessions = map<nat, QASession>

  /** The triple `(created, already_available, room_name_to_be_deleted)`. */
  datatype StartResult = StartResult(created: bool, alreadyAvailable: bool, roomNameToBeDeleted: Option<string>)

  /** Every stored session sits under its own course. */
  ghost predicate KeyedByCourse(sessions: Sessions) {
    forall c :: c in sessions ==> sessions[c].course == c
  }

  /** No two courses share a room name. */
  ghost predicate RoomsDistinct(sessions: Sessions) {
    forall c1, c2 :: c1 in sessions && c2 in sessions && c1 != c2 ==> sessions[c1].roomName != sessions[c2].roomName
  }

  ghost predicate RoomInUse(sessions: Sessions, room: string) {
    exists c :: c in sessions && sessions[c].roomName == room
  }

  /** `fetch`: the course's session, or None when it has none. */
  function Fetch(sessions: Sessions, course: nat): (r: Option<QASession>)
    ensures r.Some? <==> course in sessions
    ensures r.Some? ==> r.value == sessions[course]
  {
    if course in sessions then Some(sessions[course]) else None
  }

  /**
   * `get_create_or_reactivate` on the session table, with `freshName` the
   * room name `generate_unique_room_name` produces. Returns the triple and
   * the table afterwards.
   */
  function StartOrReactivate(sessions: Sessions, course: nat, freshName: string): (r: (StartResult, Sessions))
    requires KeyedByCourse(sessions)
    ensures KeyedByCourse(r.1)
    ensures r.0.created <==> course !in sessions
    ensures r.0.alreadyAvailable <==> course in sessions && sessions[course].status == Active
    ensures r.0.roomNameToBeDeleted.Some? <==> course in sessions && sessions[course].status == Ended
    ensures r.0.roomNameToBeDeleted.Some? ==> r.0.roomNameToBeDeleted.value == sessions[course].roomName
    ensures (if r.0.created then 1 else 0) + (if r.0.alreadyAvailable then 1 else 0)
            + (if r.0.roomNameToBeDeleted.Some? then 1 else 0) == 1
    ensures r.1.Keys == sessions.Keys + {course}
    ensures r.1[course].course == course && r.1[course].status == Active
    ensures !r.0.alreadyAvailable ==> r.1[course].roomName == freshName
    ensures r.0.alreadyAvailable ==> r.1 == sessions
    ensures forall c :: c in sessions && c != course ==> r.1[c] == sessions[c]
  {
    if course !in sessions then
      (StartResult(true, false, None), sessions[course := QASession(course, freshName, Active)])
    else
      var s := sessions[course];
      match s.status
      case Active => (StartResult(false, true, None), sessions)
      case Ended =>
        (StartResult(false, false, Some(s.roomName)), sessions[course := s.(roomName := freshName, status := Active)])
  }

  /** `end`: the course's session marked ENDED (room name and course kept), or not-found with nothing changed. */
  function EndSession(sessions: Sessions, course: nat): (r: Result<(QASession, Sessions), NotFound>)
    ensures r.Err? <==> course !in sessions
    ensures r.Ok? ==>
      && r.value.0 == sessions[course].(status := Ended)
      && r.value.1 == sessions[course := r.value.0]
  {
    if course !in sessions then Err(NotFound)
    else
      var s := sessions[course].(status := Ended);
      Ok((s, sessions[course := s]))
  }

  /** Right after any start, the course's session is active: a second start reports already_available and changes nothing. */
  lemma StartTwice(sessions: Sessions, course: nat, name1: string, name2: string)
    requires KeyedByCourse(sessions)
    ensures var (r1, after1) := StartOrReactivate(sessions, course, name1);
      var (r2, after2) := StartOrReactivate(after1, course, name2);
      r2 == StartResult(false, true, None) && after2 == after1
  {
  }

  /** Ending a session and starting it again reactivates it under the new name and hands back the old name. */
  lemma EndThenStart(sessions: Sessions, course: nat, freshName: string)
    requires KeyedByCourse(sessions) && course in sessions
    ensures EndSession(sessions, course).Ok?
    ensures KeyedByCourse(EndSession(sessions, course).value.1)
    ensures var after := EndSession(sessions, course).value.1;
      var (r, again) := StartOrReactivate(after, course, freshName);
      r == StartResult(false, false, Some(sessions[course].roomName))
      && again[course] == QASession(course, freshName, Active)
  {
  }

  /**
   * A start keeps the table keyed by course and room names distinct when the
   * generated name is new, and the name handed back for purging is then no
   * longer the room of any session, so purging it cannot touch a live room.
   */
  lemma {:induction false} StartKeepsRoomsApart(sessions: Sessions, course: nat, freshName: string)
    requires KeyedByCourse(sessions) && RoomsDistinct(sessions)
    requires !RoomInUse(sessions, freshName)
    ensures var (r, after) := StartOrReactivate(sessions, course, freshName);
      KeyedByCourse(after) && RoomsDistinct(after)
      && (r.roomNameToBeDeleted.Some? ==> !RoomInUse(after, r.roomNameToBeDeleted.value))
  {
    var (r, after) := StartOrReactivate(sessions, course, freshName);
    forall c1, c2 | c1 in after && c2 in after && c1 != c2
      ensures after[c1].roomName != after[c2].roomName
    {
      if c1 == course && !r.alreadyAvailable {
        assert sessions[c2].roomName != freshName;
      } else if c2 == course && !r.alreadyAvailable {
        assert sessions[c1].roomName != freshName;
      }
    }
    if r.roomNameToBeDeleted.Some? {
      var old_ := r.roomNameToBeDeleted.value;
      forall c | c in after ensures after[c].roomName != old_ {
        if c != course {
          assert sessions[c].roomName != sessions[course].roomName;
        }
      }
    }
  }

  /** The session registry as a mutable table. */
  class SessionRegistry {
    var sessions: Sessions
    /** Every room name ever handed out, so that a generated name can be required to be new. */
    ghost var issued: set<string>

    ghost predicate Valid()
      reads this
    {
      KeyedByCourse(sessions) && RoomsDistinct(sessions)
      && forall c :: c in sessions ==> sessions[c].roomName in issued && sessions[c].roomName != ""
    }

    constructor ()
      ensures Valid() && sessions == map[] && issued == {}
    {
      sessions := map[];
      issued := {};
    }

    /**
     * `get_create_or_reactivate`. `freshName` is the result of
     * `generate_unique_room_name`, assumed never issued before.
     */
    method GetCreateOrReactivate(course: nat, freshName: string) returns (r: StartResult)
      requires Valid() && freshName !in issued && freshName != ""
      modifies this
      ensures Valid()
      ensures (r, sessions) == StartOrReactivate(old(sessions), course, freshName)
      ensures issued == old(issued) + (if r.alreadyAvailable then {} else {freshName})
      ensures r.roomNameToBeDeleted.Some? ==> !RoomInUse(sessions, r.roomNameToBeDeleted.value)
    {
      StartKeepsRoomsApart(sessions, course, freshName);
      if course !in sessions {
        sessions := sessions[course := QASession(course, freshName, Active)];
        issued := issued + {freshName};
        return StartResult(true, false, None);
      }
      var s := sessions[course];
      if s.status == Active {
        return StartResult(false, true, None);
      }
      var stale := s.roomName;
      sessions := sessions[course := s.(roomName := freshName, status := Active)];
      issued := issued + {freshName};
      r := StartResult(false, false, Some(stale));
    }

    /** `end`: marks the course's session ENDED; not-found, with nothing changed, when there is none. */
    method End(course: nat) returns (r: Result<QASession, NotFound>)
      requires Valid()
      modifies this
      ensures Valid() && issued == old(issued)
      ensures r.Err? <==> course !in old(sessions)
      ensures r.Err? ==> sessions == old(sessions)
      ensures r.Ok? ==> EndSession(old(sessions), course) == Ok((r.value, sessions))
    {
      if course !in sessions {
        return Err(NotFound);
      }
      var s := sessions[course].(status := Ended);
      sessions := sessions[course := s];
      r := Ok(s);
    }
  }
}
