/**
 * `_notify_users` of classmate.py: every follower of a course gets the
 * notification, and in urgent mode five ":warning:" messages after it.
 * Delivery is modelled as the trace of sends it performs, in order; the
 * one-second pauses and the lookup of the member object are not modelled.
 */
module Notifier {

  type UserId = string

  /** One `bot.send_message(user, text)`. */
  datatype Send = Send(user: UserId, text: string)

  const Warning := ":warning:"
  const UrgentRepeats := 5

  /** `n` copies of `s`. */
  function Repeat(s: Send, n: nat): (r: seq<Send>)
    ensures |r| == n
    ensures forall k :: 0 <= k < n ==> r[k] == s
  {
    if n == 0 then [] else Repeat(s, n - 1) + [s]
  }

  /** The sends to one follower: the notification, then the attention signal when urgent. */
  function Delivery(user: UserId, message: string, urgent: bool): seq<Send> {
    [Send(user, message)] + (if urgent then Repeat(Send(user, Warning), UrgentRepeats) else [])
  }

  /** How many sends each follower receives. */
  function PerUser(urgent: bool): nat {
    if urgent then 1 + UrgentRepeats else 1
  }

  /** The sends of one notification, follower by follower in list order. */
  function NotifyTrace(users: seq<UserId>, message: string, urgent: bool): seq<Send> {
    if users == [] then []
    else NotifyTrace(users[..|users| - 1], message, urgent) + Delivery(users[|users| - 1], message, urgent)
  }

  /** The nested loop of `_notify_users`. */
  method NotifyUsers(users: seq<UserId>, message: string, urgent: bool) returns (trace: seq<Send>)
    ensures trace == NotifyTrace(users, message, urgent)
  {
    trace := [];
    var i := 0;
    while i < |users|
      invariant 0 <= i <= |users|
      invariant trace == NotifyTrace(users[..i], message, urgent)
    {
      var user := users[i];
      trace := trace + [Send(user, message)];
      if urgent {
        var k := 0;
        while k < UrgentRepeats
          invariant 0 <= k <= UrgentRepeats
          invariant trace == NotifyTrace(users[..i], message, urgent) + [Send(user, message)] + Repeat(Send(user, Warning), k)
        {
          trace := trace + [Send(user, Warning)];
          k := k + 1;
        }
      }
      assert users[..i + 1][..i] == users[..i];
      i := i + 1;
    }
    assert users[..i] == users;
  }

  /**
   * The shape of the trace: each follower, in list order, gets the message at
   * their first slot and the warning at the remaining five when urgent.
   */
  lemma {:induction false} NotifyTraceAt(users: seq<UserId>, message: string, urgent: bool, i: nat, k: nat)
    requires i < |users| && k < PerUser(urgent)
    ensures |NotifyTrace(users, message, urgent)| == |users| * PerUser(urgent)
    ensures i * PerUser(urgent) + k < |users| * PerUser(urgent)
    ensures NotifyTrace(users, message, urgent)[i * PerUser(urgent) + k]
            == Send(users[i], if k == 0 then message else Warning)
  {
    var n := |users|;
    var p := PerUser(urgent);
    var front := users[..n - 1];
    if i < n - 1 {
      NotifyTraceAt(front, message, urgent, i, k);
    } else {
      NotifyTraceLength(front, message, urgent);
    }
    assert n * p == (n - 1) * p + p;
    assert i * p + k < n * p by {
      assert i * p <= (n - 1) * p;
    }
  }

  lemma {:induction false} NotifyTraceLength(users: seq<UserId>, message: string, urgent: bool)
    ensures |NotifyTrace(users, message, urgent)| == |users| * PerUser(urgent)
  {
    if users != [] {
      NotifyTraceLength(users[..|users| - 1], message, urgent);
    }
  }

  /** Nothing else is sent: every send goes to a listed follower and is the message or the warning of an urgent one. */
  lemma {:induction false} NotifyTraceSends(users: seq<UserId>, message: string, urgent: bool, s: Send)
    requires s in NotifyTrace(users, message, urgent)
    ensures s.user in users
    ensures s.text == message || (urgent && s.text == Warning)
  {
    var front := users[..|users| - 1];
    if s in NotifyTrace(front, message, urgent) {
      NotifyTraceSends(front, message, urgent, s);
    }
  }
}
