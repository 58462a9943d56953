/**
 * `QAQuestionRepository` and the question purge: the append-only log of the
 * messages exchanged in each room.
 */
module QAQuestions {
  import opened Seqs
  import opened Models

  /** The text of the close comment (`LIVE_QA_END_SESSION_MSG`). */
  const LIVE_QA_END_SESSION_MSG: string := "The Q&A session has ended."
  const SYSTEM_SENDER: string := "System"

  function InRoom(room: string): QAQuestion -> bool {
    (q: QAQuestion) => q.roomName == room
  }

  function OutsideRoom(room: string): QAQuestion -> bool {
    (q: QAQuestion) => q.roomName != room
  }

  /** The questions posted in one room, in log order. */
  function RoomQuestions(log: seq<QAQuestion>, room: string): (r: seq<QAQuestion>)
    ensures forall i :: 0 <= i < |r| ==> r[i].roomName == room && r[i] in log
    ensures forall q :: q in log && q.roomName == room ==> q in r
    ensures forall q :: multiset(r)[q] == if q.roomName == room then multiset(log)[q] else 0
  {
    FilterMultiset(log, InRoom(room));
    Filter(log, InRoom(room))
  }

  /** The log after the room's questions are deleted (the purge task). */
  function Purge(log: seq<QAQuestion>, room: string): (r: seq<QAQuestion>)
    ensures forall i :: 0 <= i < |r| ==> r[i].roomName != room
  {
    Filter(log, OutsideRoom(room))
  }

  /** Purging a room leaves none of its questions. */
  lemma PurgeEmptiesRoom(log: seq<QAQuestion>, room: string)
    ensures RoomQuestions(Purge(log, room), room) == []
  {
    FilterNone(Purge(log, room), InRoom(room));
  }

  /** Purging a room keeps every question of every other room, each as often as before. */
  lemma PurgeKeepsOtherQuestions(log: seq<QAQuestion>, room: string)
    ensures forall q: QAQuestion :: q.roomName != room ==> multiset(Purge(log, room))[q] == multiset(log)[q]
  {
    FilterMultiset(log, OutsideRoom(room));
  }

  /** Purging a room leaves every other room's log exactly as it was, in order. */
  lemma PurgeKeepsOtherRooms(log: seq<QAQuestion>, room: string, other: string)
    requires other != room
    ensures RoomQuestions(Purge(log, room), other) == RoomQuestions(log, other)
  {
    FilterFilter(log, OutsideRoom(room), InRoom(other), InRoom(other));
  }

  /** The question table. */
  class QuestionLog {
    var questions: seq<QAQuestion>

    constructor ()
      ensures questions == []
    {
      questions := [];
    }

    /**
     * `create_and_save_close_comment`: appends one system message in the
     * session's current room, stamped with `now`, and changes nothing else.
     */
    method CreateAndSaveCloseComment(session: QASession, now: int) returns (comment: QAQuestion)
      modifies this
      ensures comment.roomName == session.roomName
      ensures comment.text == LIVE_QA_END_SESSION_MSG && comment.sender == SYSTEM_SENDER
      ensures comment.timestamp == now
      ensures questions == old(questions) + [comment]
    {
      comment := QAQuestion(session.roomName, LIVE_QA_END_SESSION_MSG, SYSTEM_SENDER, now);
      questions := questions + [comment];
    }

    /** The `delete_qa_questions` task: deletes every question of `room` and no other. */
    method DeleteQuestions(room: string)
      modifies this
      ensures questions == Purge(old(questions), room)
    {
      questions := Purge(questions, room);
    }
  }
}
