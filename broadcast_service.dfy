/** The bot-side broadcast: a template message copied to a list of users,
    with one retry after a rate limit and a pause after every user. */
module BroadcastService {
  import opened Wrappers
  import opened Models
  import opened Messaging

  /** Seconds between two users (`BROADCAST_DELAY`). */
  const BroadcastDelay: real := 0.05

  /** The parts of the admin's template message a broadcast copies: the file
      ids of the photo's sizes (smallest first), the video and document file
      ids, the caption and the text. */
  datatype Template = Template(photo: seq<string>, video: Option<string>, document: Option<string>,
                               caption: Option<string>, text: Option<string>)

  /** `a or b` on optional strings. */
  function Or(a: Option<string>, b: Option<string>): (r: Option<string>)
    ensures Truthy(a) ==> r == a
    ensures !Truthy(a) ==> r == b
  {
    if Truthy(a) then a else b
  }

  /** The first send: photo (its largest size), else video, else document,
      each captioned with the caption or else the text; else the text, or
      else the caption, or else "". */
  function FirstPayload(m: Template): (r: Payload)
    ensures r.PhotoMessage? <==> m.photo != []
    ensures r.VideoMessage? <==> m.photo == [] && m.video.Some?
    ensures r.DocumentMessage? <==> m.photo == [] && m.video.None? && m.document.Some?
    ensures r.TextMessage? <==> m.photo == [] && m.video.None? && m.document.None?
    ensures r.PhotoMessage? ==> r.photo == m.photo[|m.photo| - 1]
    ensures !r.TextMessage? ==> r.caption == Or(m.caption, m.text)
    ensures r.TextMessage? ==> r.text == Or(m.text, m.caption).GetOr("") && r.keyboard.None? && !r.html
    ensures (r.PhotoMessage? || r.VideoMessage?) ==> r.keyboard.None? && !r.html
  {
    if m.photo != [] then PhotoMessage(m.photo[|m.photo| - 1], Or(m.caption, m.text), false, None)
    else if m.video.Some? then VideoMessage(m.video.value, Or(m.caption, m.text), false, None)
    else if m.document.Some? then DocumentMessage(m.document.value, Or(m.caption, m.text))
    else TextMessage(Or(m.text, m.caption).GetOr(""), false, None)
  }

  /** The retry send: the photo again, or otherwise the text alone, so a video
      or a document is retried as a (possibly empty) text message. */
  function RetryPayload(m: Template): (r: Payload)
    ensures r.PhotoMessage? || r.TextMessage?
    ensures r.PhotoMessage? <==> m.photo != []
    ensures r.PhotoMessage? ==> r == FirstPayload(m)
    ensures r.TextMessage? ==> r.text == m.text.GetOr("")
  {
    if m.photo != [] then PhotoMessage(m.photo[|m.photo| - 1], Or(m.caption, m.text), false, None)
    else TextMessage(m.text.GetOr(""), false, None)
  }

  /** One user's share of a broadcast: whether it counts as a success, and
      the sends and pauses made for it. */
  datatype UserResult = UserResult(success: bool, events: seq<Event>)

  function SendToUser(m: Template, u: User, position: nat, send: Provider, delay: real): (r: UserResult)
    ensures var first := send(Attempt(position, false), Delivery(u.telegramId, FirstPayload(m)));
            var retried := send(Attempt(position, true), Delivery(u.telegramId, RetryPayload(m)));
            && (r.success <==> first.Delivered? || (first.RetryAfter? && retried.Delivered?))
            && (first.RetryAfter? ==>
                  r.events == [Send(Attempt(position, false), Delivery(u.telegramId, FirstPayload(m))),
                               Pause(first.seconds as real),
                               Send(Attempt(position, true), Delivery(u.telegramId, RetryPayload(m))),
                               Pause(delay)])
            && (!first.RetryAfter? ==>
                  r.events == [Send(Attempt(position, false), Delivery(u.telegramId, FirstPayload(m))), Pause(delay)])
  {
    var first := Delivery(u.telegramId, FirstPayload(m));
    match send(Attempt(position, false), first)
    case Delivered => UserResult(true, [Send(Attempt(position, false), first), Pause(delay)])
    case RetryAfter(seconds) =>
      var again := Delivery(u.telegramId, RetryPayload(m));
      UserResult(send(Attempt(position, true), again).Delivered?,
                 [Send(Attempt(position, false), first), Pause(seconds as real), Send(Attempt(position, true), again), Pause(delay)])
    case _ => UserResult(false, [Send(Attempt(position, false), first), Pause(delay)])
  }

  /** The counters and the event trace of a whole broadcast. */
  datatype Tally = Tally(success: nat, failed: nat, events: seq<Event>)

  /** The users from first to last, each counted as exactly one success or
      one failure. */
  function Broadcast(m: Template, users: seq<User>, send: Provider, delay: real): (r: Tally)
    ensures r.success + r.failed == |users|
    decreases |users|
  {
    if users == [] then Tally(0, 0, [])
    else
      var n := |users| - 1;
      var before := Broadcast(m, users[..n], send, delay);
      var one := SendToUser(m, users[n], n, send, delay);
      if one.success then Tally(before.success + 1, before.failed, before.events + one.events)
      else Tally(before.success, before.failed + 1, before.events + one.events)
  }

  /** `send_broadcast`: the counters it returns, and the trace of sends and
      sleeps it makes. */
  method SendBroadcast(users: seq<User>, m: Template, send: Provider, delay: real)
    returns (success: nat, failed: nat, events: seq<Event>)
    ensures Tally(success, failed, events) == Broadcast(m, users, send, delay)
  {
    success, failed, events := 0, 0, [];
    var i := 0;
    while i < |users|
      invariant 0 <= i <= |users|
      invariant Tally(success, failed, events) == Broadcast(m, users[..i], send, delay)
    {
      assert users[..i + 1][..i] == users[..i];
      var u := users[i];
      var first := Delivery(u.telegramId, FirstPayload(m));
      events := events + [Send(Attempt(i, false), first)];
      var outcome := send(Attempt(i, false), first);
      match outcome {
        case Delivered =>
          success := success + 1;
        case RetryAfter(seconds) =>
          events := events + [Pause(seconds as real)];
          var again := Delivery(u.telegramId, RetryPayload(m));
          events := events + [Send(Attempt(i, true), again)];
          if send(Attempt(i, true), again).Delivered? {
            success := success + 1;
          } else {
            failed := failed + 1;
          }
        case Forbidden(_) =>
          failed := failed + 1;
        case _ =>
          failed := failed + 1;
      }
      events := events + [Pause(delay)];
      i := i + 1;
    }
    assert users[..i] == users;
  }

  /** The sends a trace makes. */
  function Sends(events: seq<Event>): (r: seq<Attempt>)
    ensures |r| <= |events|
  {
    if events == [] then []
    else Sends(events[..|events| - 1]) + (if events[|events| - 1].Send? then [events[|events| - 1].attempt] else [])
  }

  lemma {:induction false} SendsAppend(a: seq<Event>, b: seq<Event>)
    ensures Sends(a + b) == Sends(a) + Sends(b)
    decreases |b|
  {
    if b == [] {
      assert a + b == a;
    } else {
      var n := |b| - 1;
      assert (a + b)[..|a + b| - 1] == a + b[..n];
      SendsAppend(a, b[..n]);
    }
  }

  /** A user is sent to once, or twice when the first send hits the rate
      limit, and the second send is marked as the retry: there is never a
      second retry. */
  lemma UserSends(m: Template, u: User, position: nat, send: Provider, delay: real)
    ensures var first := send(Attempt(position, false), Delivery(u.telegramId, FirstPayload(m)));
            Sends(SendToUser(m, u, position, send, delay).events)
            == if first.RetryAfter? then [Attempt(position, false), Attempt(position, true)] else [Attempt(position, false)]
  {
    var e := SendToUser(m, u, position, send, delay).events;
    var first := send(Attempt(position, false), Delivery(u.telegramId, FirstPayload(m)));
    assert e[..1][..0] == [];
    assert Sends(e[..1]) == [Attempt(position, false)];
    assert e[..2][..1] == e[..1];
    assert Sends(e[..2]) == [Attempt(position, false)];
    if first.RetryAfter? {
      assert e[..3][..2] == e[..2];
      assert e[..4][..3] == e[..3];
      assert e == e[..4];
    } else {
      assert e == e[..2];
    }
  }

  /** The whole trace sends to the users in list order: the first attempts
      carry positions 0, 1, 2, ... and each retry directly follows its
      user's first attempt. */
  lemma {:induction false} BroadcastSendsInOrder(m: Template, users: seq<User>, send: Provider, delay: real)
    ensures Sends(Broadcast(m, users, send, delay).events) == Attempts(m, users, send)
    decreases |users|
  {
    if users != [] {
      var n := |users| - 1;
      BroadcastSendsInOrder(m, users[..n], send, delay);
      SendsAppend(Broadcast(m, users[..n], send, delay).events, SendToUser(m, users[n], n, send, delay).events);
      UserSends(m, users[n], n, send, delay);
    }
  }

  /** The attempts a broadcast makes, user by user: the first send, and the
      retry only after a rate limit. */
  function Attempts(m: Template, users: seq<User>, send: Provider): seq<Attempt>
    decreases |users|
  {
    if users == [] then []
    else
      var n := |users| - 1;
      var first := send(Attempt(n, false), Delivery(users[n].telegramId, FirstPayload(m)));
      Attempts(m, users[..n], send) + (if first.RetryAfter? then [Attempt(n, false), Attempt(n, true)] else [Attempt(n, false)])
  }

  /** A blocked user (or any error other than a rate limit) is a failure
      with a single send. */
  lemma BlockedUserFailsWithoutRetry(m: Template, u: User, position: nat, send: Provider, delay: real)
    requires !send(Attempt(position, false), Delivery(u.telegramId, FirstPayload(m))).Delivered?
    requires !send(Attempt(position, false), Delivery(u.telegramId, FirstPayload(m))).RetryAfter?
    ensures !SendToUser(m, u, position, send, delay).success
    ensures Sends(SendToUser(m, u, position, send, delay).events) == [Attempt(position, false)]
  {
    UserSends(m, u, position, send, delay);
  }
}
