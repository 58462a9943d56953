/**
 * `NotificationRepository.fetch` and the `unread_notifications` context
 * processor: a user's notifications, newest first, and the number of them
 * still unread.
 */
module Notifications {
  import opened Wrappers
  import opened Seqs
  import opened Models

  function ForUser(user: nat): Notification -> bool {
    (n: Notification) => n.user == user
  }

  function UnreadFor(user: nat): Notification -> bool {
    (n: Notification) => n.user == user && !n.isRead
  }

  function CreatedAtKey(n: Notification): int { n.createdAt }

  /** `fetch`: exactly the user's notifications, each as often as stored, newest first. */
  function Fetch(rows: seq<Notification>, user: nat): (r: seq<Notification>)
    ensures SortedDesc(r, CreatedAtKey)
    ensures forall n :: n in r ==> n.user == user
    ensures forall n: Notification :: n.user == user ==> multiset(r)[n] == multiset(rows)[n]
  {
    FilterMultiset(rows, ForUser(user));
    var r := SortDesc(Filter(rows, ForUser(user)), CreatedAtKey);
    assert forall n :: n in r ==> n in multiset(Filter(rows, ForUser(user)));
    r
  }

  /** A user with a single stored notification gets just that one. */
  lemma FetchSingle(rows: seq<Notification>, user: nat, k: nat)
    requires k < |rows| && rows[k].user == user
    requires forall i :: 0 <= i < |rows| && rows[i].user == user ==> i == k
    ensures Fetch(rows, user) == [rows[k]]
  {
    var before, after := rows[..k], rows[k + 1..];
    assert rows == before + [rows[k]] + after;
    FilterAppend(before + [rows[k]], after, ForUser(user));
    FilterAppend(before, [rows[k]], ForUser(user));
    FilterNone(before, ForUser(user));
    FilterNone(after, ForUser(user));
    assert Filter(rows, ForUser(user)) == [rows[k]];
  }

  /** The positions in the table of the user's notifications that are still unread. */
  ghost function UnreadPositions(rows: seq<Notification>, user: nat): set<int> {
    set i | 0 <= i < |rows| && rows[i].user == user && !rows[i].isRead
  }

  /**
   * `unread_notifications`: nothing for an anonymous request, else the number
   * of the user's notifications still unread.
   */
  function UnreadNotifications(authenticated: bool, user: nat, rows: seq<Notification>): (r: Option<nat>)
    ensures r.None? <==> !authenticated
    ensures r.Some? ==> r.value == |UnreadPositions(rows, user)|
    ensures r.Some? ==> r.value <= Count(rows, ForUser(user))
  {
    if !authenticated then None
    else
      UnreadWithinTotal(rows, user);
      CountsUnreadPositions(rows, user);
      Some(Count(rows, UnreadFor(user)))
  }

  lemma {:induction false} UnreadWithinTotal(rows: seq<Notification>, user: nat)
    ensures Count(rows, UnreadFor(user)) <= Count(rows, ForUser(user))
  {
    if rows != [] {
      UnreadWithinTotal(rows[1..], user);
    }
  }

  /** Counting the filtered rows counts the positions of the unread ones. */
  lemma {:induction false} CountsUnreadPositions(rows: seq<Notification>, user: nat)
    ensures Count(rows, UnreadFor(user)) == |UnreadPositions(rows, user)|
  {
    if rows != [] {
      var init, last := rows[..|rows| - 1], rows[|rows| - 1];
      assert rows == init + [last];
      CountsUnreadPositions(init, user);
      FilterSnoc(init, last, UnreadFor(user));
      UnreadPositionsSnoc(init, last, user);
    }
  }

  /** One more row adds its own position when it is one of the user's unread notifications. */
  lemma UnreadPositionsSnoc(init: seq<Notification>, last: Notification, user: nat)
    ensures |UnreadPositions(init + [last], user)|
      == |UnreadPositions(init, user)| + (if last.user == user && !last.isRead then 1 else 0)
  {
    var rows := init + [last];
    var before, after := UnreadPositions(init, user), UnreadPositions(rows, user);
    assert forall i :: 0 <= i < |init| ==> rows[i] == init[i];
    if last.user == user && !last.isRead {
      assert after == before + {|init|};
      assert |init| !in before;
    } else {
      assert after == before;
    }
  }

  /**
   * A new notification for the user raises the count by one; one for
   * another user, or one already read, leaves it as it was.
   */
  lemma UnreadCountStep(rows: seq<Notification>, user: nat, n: Notification)
    ensures UnreadNotifications(true, user, rows + [n]).value
      == UnreadNotifications(true, user, rows).value + (if n.user == user && !n.isRead then 1 else 0)
  {
    FilterSnoc(rows, n, UnreadFor(user));
  }

  /** Notifications of other users never change the count. */
  lemma OtherUsersIgnored(rows: seq<Notification>, others: seq<Notification>, user: nat)
    requires forall i :: 0 <= i < |others| ==> others[i].user != user
    ensures UnreadNotifications(true, user, rows + others) == UnreadNotifications(true, user, rows)
  {
    FilterAppend(rows, others, UnreadFor(user));
    FilterNone(others, UnreadFor(user));
  }

  /** Once every one of the user's notifications is read, the count is zero. */
  lemma AllReadCountsZero(rows: seq<Notification>, user: nat)
    requires forall i :: 0 <= i < |rows| && rows[i].user == user ==> rows[i].isRead
    ensures UnreadNotifications(true, user, rows) == Some(0)
  {
    FilterNone(rows, UnreadFor(user));
  }
}
