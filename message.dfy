/**
 * Chat-side state of bot/helpers/message.py: who may use the bot
 * (`check_user`), the list of users or chats with a task in progress
 * (`antiSpam`), the two-second throttle of upload progress callbacks, the
 * FloodWait retries of `send_message` and `edit_message`, and the user
 * record built from an incoming message (`fetch_user_details`).
 *
 * Telegram's answers to a send or an edit are given as a sequence of
 * attempt outcomes; the clock is a parameter.
 */
module Message {
  import opened Common

  // ---------------------------------------------------------------------
  // Authorisation

  /** The `bot_set` fields `check_user` reads. */
  datatype Access = Access(admins: seq<int>, authChats: seq<int>, authUsers: seq<int>, botPublic: bool)

  /** The sender and chat of an incoming message. */
  datatype Origin = Origin(fromUser: int, chat: int)

  function Authorised(a: Access): seq<int>
  {
    a.admins + a.authChats + a.authUsers
  }

  /**
   * `check_user`. `None` stands for the exception raised when the message
   * is needed and absent.
   */
  function CheckUser(a: Access, uid: Option<int>, msg: Option<Origin>, restricted: bool): (r: Option<bool>)
    ensures restricted ==> r == Some(uid.Some? && uid.value in a.admins)
    ensures !restricted && a.botPublic ==> r == Some(true)
    ensures !restricted && !a.botPublic && msg.None? ==> r.None?
    ensures !restricted && !a.botPublic && msg.Some? ==>
              r == Some(msg.value.fromUser in Authorised(a) || msg.value.chat in Authorised(a))
  {
    if restricted then Some(uid.Some? && uid.value in a.admins)
    else if a.botPublic then Some(true)
    else if msg.None? then None
    else
      var all := Authorised(a);
      Some(msg.value.fromUser in all || msg.value.chat in all)
  }

  /** Whoever passes the admins-only check also passes the ordinary one. */
  lemma RestrictedIsStricter(a: Access, uid: int, chat: int)
    requires CheckUser(a, Some(uid), None, true) == Some(true)
    ensures CheckUser(a, Some(uid), Some(Origin(uid, chat)), false) == Some(true)
  {
    assert uid in Authorised(a) by {
      var i :| 0 <= i < |a.admins| && a.admins[i] == uid;
      assert Authorised(a)[i] == uid;
    }
  }

  /** An authorised chat admits every member, authorised or not. */
  lemma AuthorisedChatAdmitsAll(a: Access, fromUser: int, chat: int)
    requires chat in a.authChats
    ensures CheckUser(a, None, Some(Origin(fromUser, chat)), false) == Some(true)
  {
    var i :| 0 <= i < |a.authChats| && a.authChats[i] == chat;
    assert Authorised(a)[|a.admins| + i] == chat;
  }

  // ---------------------------------------------------------------------
  // The anti-spam list

  predicate NoDuplicates(s: seq<int>)
  {
    forall i, j :: 0 <= i < j < |s| ==> s[i] != s[j]
  }

  /** `list.append` guarded by membership: the key is recorded once. */
  function Acquired(s: seq<int>, key: int): (r: seq<int>)
    ensures key in r
    ensures NoDuplicates(s) ==> NoDuplicates(r)
    ensures forall x :: x in r <==> x in s || x == key
  {
    if key in s then s else s + [key]
  }

  /** `list.remove` guarded by membership: the first occurrence goes. */
  function RemoveFirst(s: seq<int>, key: int): (r: seq<int>)
    ensures key !in s ==> r == s
    ensures key in s ==> |r| == |s| - 1
    ensures forall x :: x in r ==> x in s
    decreases |s|
  {
    if s == [] then []
    else if s[0] == key then s[1..]
    else [s[0]] + RemoveFirst(s[1..], key)
  }

  /** In a list without duplicates, removing a key drops exactly that key. */
  lemma {:induction false} RemoveFirstExact(s: seq<int>, key: int)
    requires NoDuplicates(s)
    ensures NoDuplicates(RemoveFirst(s, key))
    ensures forall x :: x in RemoveFirst(s, key) <==> x in s && x != key
    decreases |s|
  {
    if s != [] && s[0] != key {
      assert NoDuplicates(s[1..]) by {
        forall i, j | 0 <= i < j < |s[1..]| ensures s[1..][i] != s[1..][j] {
          assert s[1..][i] == s[i + 1] && s[1..][j] == s[j + 1];
        }
      }
      RemoveFirstExact(s[1..], key);
      var r := RemoveFirst(s[1..], key);
      assert s[0] !in s[1..] by {
        forall i | 0 <= i < |s[1..]| ensures s[1..][i] != s[0] {
          assert s[1..][i] == s[i + 1];
        }
      }
      forall i, j | 0 <= i < j < |[s[0]] + r| ensures ([s[0]] + r)[i] != ([s[0]] + r)[j] {
        if i == 0 {
          assert ([s[0]] + r)[j] == r[j - 1];
          assert r[j - 1] in r;
        } else {
          assert ([s[0]] + r)[i] == r[i - 1] && ([s[0]] + r)[j] == r[j - 1];
        }
      }
    } else if s != [] {
      forall x | x in s[1..] ensures x != key {
        var i :| 0 <= i < |s[1..]| && s[1..][i] == x;
        assert s[i + 1] == x;
      }
      forall i, j | 0 <= i < j < |s[1..]| ensures s[1..][i] != s[1..][j] {
        assert s[1..][i] == s[i + 1] && s[1..][j] == s[j + 1];
      }
    }
  }

  /** Releasing a key that was just recorded gives the list back. */
  lemma {:induction false} AcquireThenRevoke(s: seq<int>, key: int)
    requires key !in s
    ensures RemoveFirst(Acquired(s, key), key) == s
    decreases |s|
  {
    if s != [] {
      assert (s + [key])[0] == s[0];
      assert (s + [key])[1..] == s[1..] + [key];
      AcquireThenRevoke(s[1..], key);
      assert [s[0]] + s[1..] == s;
    }
  }

  /**
   * `antiSpam`'s list `current_user`. In `CHAT+` mode the key is the chat,
   * in `USER` mode the user; in any other mode nothing is recorded.
   */
  class AntiSpam {
    var current: seq<int>

    ghost predicate Valid()
      reads this
    {
      NoDuplicates(current)
    }

    constructor ()
      ensures Valid() && current == []
    {
      current := [];
    }

    /** `antiSpam(uid, cid)`: true when the key already holds the lock, else the key is recorded. */
    method Acquire(mode: string, uid: int, cid: int) returns (busy: bool)
      requires Valid()
      modifies this
      ensures Valid()
      ensures mode == "CHAT+" ==> busy == (cid in old(current)) && current == Acquired(old(current), cid)
      ensures mode == "USER" ==> busy == (uid in old(current)) && current == Acquired(old(current), uid)
      ensures mode != "CHAT+" && mode != "USER" ==> !busy && current == old(current)
    {
      busy := false;
      if mode == "CHAT+" {
        if cid in current {
          busy := true;
        } else {
          current := current + [cid];
        }
      } else if mode == "USER" {
        if uid in current {
          busy := true;
        } else {
          current := current + [uid];
        }
      }
    }

    /** `antiSpam(uid, cid, revoke=True)`: the key is released if present. */
    method Revoke(mode: string, uid: int, cid: int)
      requires Valid()
      modifies this
      ensures Valid()
      ensures mode == "CHAT+" ==> current == RemoveFirst(old(current), cid)
      ensures mode == "USER" ==> current == RemoveFirst(old(current), uid)
      ensures mode != "CHAT+" && mode != "USER" ==> current == old(current)
      ensures mode == "CHAT+" ==> cid !in current
      ensures mode == "USER" ==> uid !in current
    {
      if mode == "CHAT+" {
        RemoveFirstExact(current, cid);
        if cid in current {
          current := RemoveFirst(current, cid);
        }
      } else if mode == "USER" {
        RemoveFirstExact(current, uid);
        if uid in current {
          current := RemoveFirst(current, uid);
        }
      }
    }
  }

  // ---------------------------------------------------------------------
  // The progress throttle

  const MIN_INTERVAL: real := 2.0

  /** A progress update scheduled on the reporter. */
  datatype Update = Update(current: nat, totalBytes: nat, fileIndex: Option<nat>, fileTotal: Option<nat>, stageLabel: string)

  datatype Tick = CancelRaised | Skipped | Forwarded(update: Update)

  /** One callback: the cancel check first, then the throttle against the last forwarded time. */
  function Step(last: real, now: real, cancelled: bool): (r: (bool, real))
    ensures r.0 ==> !cancelled && now - last >= MIN_INTERVAL && r.1 == now
    ensures !r.0 ==> r.1 == last
  {
    if cancelled || now - last < MIN_INTERVAL then (false, last) else (true, now)
  }

  /**
   * The throttle state of one `send_message` call: `last_update_time`
   * starts at 0 and moves only when an update is forwarded.
   */
  class ProgressThrottle {
    var lastUpdate: real
    const progressLabel: Option<string>
    const fileIndex: Option<nat>
    const fileTotal: Option<nat>

    constructor (progressLabel: Option<string>, fileIndex: Option<nat>, fileTotal: Option<nat>)
      ensures lastUpdate == 0.0
      ensures this.progressLabel == progressLabel && this.fileIndex == fileIndex && this.fileTotal == fileTotal
    {
      lastUpdate := 0.0;
      this.progressLabel := progressLabel;
      this.fileIndex := fileIndex;
      this.fileTotal := fileTotal;
    }

    /** `_cb(current, total_bytes)` at clock reading `now`. */
    method Callback(current: nat, totalBytes: nat, now: real, cancelled: bool) returns (tick: Tick)
      modifies this
      ensures tick == CancelRaised <==> cancelled
      ensures cancelled ==> lastUpdate == old(lastUpdate)
      ensures !cancelled ==> (tick.Forwarded? <==> Step(old(lastUpdate), now, cancelled).0)
      ensures lastUpdate == Step(old(lastUpdate), now, cancelled).1
      ensures tick.Forwarded? ==>
                tick.update == Update(current, totalBytes, fileIndex, fileTotal, OrElse(progressLabel, "Uploading"))
    {
      if cancelled {
        return CancelRaised;
      }
      if now - lastUpdate < MIN_INTERVAL {
        return Skipped;
      }
      lastUpdate := now;
      tick := Forwarded(Update(current, totalBytes, fileIndex, fileTotal, OrElse(progressLabel, "Uploading")));
    }
  }

  /** The clock readings, among `times`, at which updates are forwarded, starting from `last`. */
  function ForwardedTimes(last: real, times: seq<real>): seq<real>
    decreases |times|
  {
    if times == [] then []
    else
      var (fwd, last') := Step(last, times[0], false);
      (if fwd then [times[0]] else []) + ForwardedTimes(last', times[1..])
  }

  /** Consecutive forwarded updates are at least two seconds apart. */
  lemma {:induction false} ForwardedSpaced(last: real, times: seq<real>)
    ensures var f := ForwardedTimes(last, times);
            (f != [] ==> f[0] - last >= MIN_INTERVAL) &&
            forall k :: 0 <= k < |f| - 1 ==> f[k + 1] - f[k] >= MIN_INTERVAL
    decreases |times|
  {
    if times != [] {
      var (fwd, last') := Step(last, times[0], false);
      ForwardedSpaced(last', times[1..]);
      var rest := ForwardedTimes(last', times[1..]);
      if fwd {
        var f := [times[0]] + rest;
        forall k | 0 <= k < |f| - 1 ensures f[k + 1] - f[k] >= MIN_INTERVAL {
          if k > 0 {
            assert f[k] == rest[k - 1] && f[k + 1] == rest[k];
          }
        }
      }
    }
  }

  // ---------------------------------------------------------------------
  // FloodWait retries

  /** How Telegram answers one send or edit. */
  datatype Answer = Accepted(msgId: int) | FloodWait(seconds: nat) | NotModified | OtherError

  /**
   * What `send_message` does in one pass: the stage shown first, then the
   * zero-progress update for a path whose size was read, and the sleep after
   * a FloodWait.
   */
  datatype SendEvent = StageShown | UploadStarted(totalBytes: nat) | Slept(seconds: nat)

  /** `send_message`'s result: the message, `None`, or answers ran out while still waiting. */
  datatype SendResult = SentMessage(msgId: int) | NoMessage | StillWaiting

  /**
   * `send_message` over the answers to its successive attempts: a FloodWait
   * sleeps for its value and tries again with the same arguments; any other
   * failure yields `None`. Each pass shows the upload stage first when a
   * reporter is attached to a media send, followed by `update_upload(0, size)`
   * when the item is an existing path whose size `presized` holds.
   */
  function SendSpec(answers: seq<Answer>, staged: bool, presized: Option<nat>): (r: (SendResult, seq<SendEvent>))
    decreases |answers|
  {
    var stage := PreStage(staged, presized);
    if answers == [] then (StillWaiting, [])
    else match answers[0]
      case Accepted(id) => (SentMessage(id), stage)
      case FloodWait(s) =>
        var (res, evs) := SendSpec(answers[1..], staged, presized);
        (res, (stage + [Slept(s)]) + evs)
      case _ => (NoMessage, stage)
  }

  /** The events before one attempt: the stage, then the zero-progress update when the size was read. */
  function PreStage(staged: bool, presized: Option<nat>): (r: seq<SendEvent>)
    ensures !staged ==> r == []
    ensures staged ==> |r| >= 1 && r[0] == StageShown
    ensures |r| == 2 <==> staged && presized.Some?
    ensures |r| == 2 ==> r[1] == UploadStarted(presized.value)
  {
    if !staged then []
    else [StageShown] + (if presized.Some? then [UploadStarted(presized.value)] else [])
  }

  method SendMessage(answers: seq<Answer>, staged: bool, presized: Option<nat>) returns (result: SendResult, events: seq<SendEvent>)
    ensures result == SendSpec(answers, staged, presized).0 && events == SendSpec(answers, staged, presized).1
  {
    ghost var spec := SendSpec(answers, staged, presized);
    var i := 0;
    events := [];
    result := StillWaiting;
    assert answers[0..] == answers;
    assert [] + spec.1 == spec.1;
    while i < |answers|
      invariant 0 <= i <= |answers|
      invariant forall k :: 0 <= k < i ==> answers[k].FloodWait?
      invariant spec.0 == SendSpec(answers[i..], staged, presized).0
      invariant spec.1 == events + SendSpec(answers[i..], staged, presized).1
      decreases |answers| - i
    {
      var stage := PreStage(staged, presized);
      SendSpecStep(answers, staged, presized, i);
      match answers[i]
      case Accepted(id) => {
        return SentMessage(id), events + stage;
      }
      case FloodWait(s) => {
        ghost var rest := SendSpec(answers[i + 1..], staged, presized).1;
        AppendRegroup(events, stage + [Slept(s)], rest);
        events := events + (stage + [Slept(s)]);
        i := i + 1;
      }
      case _ => {
        return NoMessage, events + stage;
      }
    }
    assert answers[i..] == [];
  }

  lemma AppendRegroup(a: seq<SendEvent>, b: seq<SendEvent>, c: seq<SendEvent>)
    ensures a + (b + c) == (a + b) + c
  {
  }

  /** One attempt of `SendSpec`, from the answer at `i` on. */
  lemma SendSpecStep(answers: seq<Answer>, staged: bool, presized: Option<nat>, i: nat)
    requires i < |answers|
    ensures answers[i].Accepted? ==>
              SendSpec(answers[i..], staged, presized) == (SentMessage(answers[i].msgId), PreStage(staged, presized))
    ensures answers[i].FloodWait? ==>
              SendSpec(answers[i..], staged, presized).0 == SendSpec(answers[i + 1..], staged, presized).0 &&
              SendSpec(answers[i..], staged, presized).1 ==
                (PreStage(staged, presized) + [Slept(answers[i].seconds)]) + SendSpec(answers[i + 1..], staged, presized).1
    ensures !answers[i].Accepted? && !answers[i].FloodWait? ==>
              SendSpec(answers[i..], staged, presized) == (NoMessage, PreStage(staged, presized))
  {
    assert answers[i..][0] == answers[i];
    assert answers[i..][1..] == answers[i + 1..];
  }

  /** Slept seconds, in order. */
  function Sleeps(events: seq<SendEvent>): seq<nat>
  {
    if events == [] then []
    else (if events[0].Slept? then [events[0].seconds] else []) + Sleeps(events[1..])
  }

  /**
   * Every FloodWait before the first other answer is slept off for exactly
   * its value, and the first other answer decides the result.
   */
  lemma {:induction false} SendSleepsFloodWaits(answers: seq<Answer>, staged: bool, presized: Option<nat>, n: nat)
    requires n <= |answers|
    requires forall k :: 0 <= k < n ==> answers[k].FloodWait?
    ensures Sleeps(SendSpec(answers, staged, presized).1) ==
              seq(n, k requires 0 <= k < n => answers[k].seconds) + Sleeps(SendSpec(answers[n..], staged, presized).1)
    ensures SendSpec(answers, staged, presized).0 == SendSpec(answers[n..], staged, presized).0
    decreases n
  {
    if n > 0 {
      SendSleepsFloodWaits(answers[1..], staged, presized, n - 1);
      assert answers[1..][n - 1..] == answers[n..];
      var stage := PreStage(staged, presized);
      var rest := SendSpec(answers[1..], staged, presized).1;
      SleepsAppend(stage + [Slept(answers[0].seconds)], rest);
      SleepsAppend(stage, [Slept(answers[0].seconds)]);
      assert Sleeps(stage) == [] by {
        SleepsNone(stage);
      }
      assert Sleeps([Slept(answers[0].seconds)]) == [answers[0].seconds];
      var tail := seq(n - 1, k requires 0 <= k < n - 1 => answers[1..][k].seconds);
      assert [answers[0].seconds] + tail == seq(n, k requires 0 <= k < n => answers[k].seconds);
    } else {
      assert answers[0..] == answers;
    }
  }

  lemma {:induction false} SleepsNone(events: seq<SendEvent>)
    requires forall k :: 0 <= k < |events| ==> !events[k].Slept?
    ensures Sleeps(events) == []
    decreases |events|
  {
    if events != [] {
      SleepsNone(events[1..]);
    }
  }

  lemma {:induction false} SleepsAppend(a: seq<SendEvent>, b: seq<SendEvent>)
    ensures Sleeps(a + b) == Sleeps(a) + Sleeps(b)
    decreases |a|
  {
    if a != [] {
      assert (a + b)[1..] == a[1..] + b;
      SleepsAppend(a[1..], b);
    } else {
      assert a + b == b;
    }
  }

  /** `edit_message`'s result: the edited message, `None`, a raised error, or answers ran out. */
  datatype EditResult = Edited(msgId: int) | NoEdit | EditRaised | EditStillWaiting

  /**
   * `edit_message`: an unchanged text gives `None`; a FloodWait is slept
   * off and retried only with `antiflood`, else gives `None`; other errors
   * are not caught.
   */
  function EditSpec(answers: seq<Answer>, antiflood: bool): (r: (EditResult, seq<nat>))
    ensures !antiflood ==> r.1 == []
    decreases |answers|
  {
    if answers == [] then (EditStillWaiting, [])
    else match answers[0]
      case Accepted(id) => (Edited(id), [])
      case NotModified => (NoEdit, [])
      case OtherError => (EditRaised, [])
      case FloodWait(s) =>
        if antiflood then
          var (res, sleeps) := EditSpec(answers[1..], antiflood);
          (res, [s] + sleeps)
        else (NoEdit, [])
  }

  method EditMessage(answers: seq<Answer>, antiflood: bool) returns (result: EditResult, sleeps: seq<nat>)
    ensures result == EditSpec(answers, antiflood).0 && sleeps == EditSpec(answers, antiflood).1
  {
    var i := 0;
    sleeps := [];
    assert answers[0..] == answers;
    assert [] + EditSpec(answers, antiflood).1 == EditSpec(answers, antiflood).1;
    while i < |answers|
      invariant 0 <= i <= |answers|
      invariant EditSpec(answers, antiflood).0 == EditSpec(answers[i..], antiflood).0
      invariant EditSpec(answers, antiflood).1 == sleeps + EditSpec(answers[i..], antiflood).1
      decreases |answers| - i
    {
      assert answers[i..][0] == answers[i];
      match answers[i]
      case Accepted(id) => {
        return Edited(id), sleeps;
      }
      case NotModified => {
        return NoEdit, sleeps;
      }
      case OtherError => {
        return EditRaised, sleeps;
      }
      case FloodWait(s) => {
        if !antiflood {
          return NoEdit, sleeps;
        }
        assert answers[i..][1..] == answers[i + 1..];
        sleeps := sleeps + [s];
        i := i + 1;
      }
    }
    assert answers[i..] == [];
    result := EditStillWaiting;
  }

  /** Without `antiflood`, an edit is tried once: its first answer decides. */
  lemma EditWithoutAntifloodTriesOnce(answers: seq<Answer>)
    requires answers != []
    ensures EditSpec(answers, false) == EditSpec([answers[0]], false)
  {
  }

  // ---------------------------------------------------------------------
  // Media parameters

  /** The track or video metadata a media send reads; a missing key is `None`. */
  datatype Meta = Meta(duration: Option<int>, artist: Option<string>, title: Option<string>,
                       width: Option<int>, height: Option<int>, thumbnail: Option<string>)

  const EMPTY_META := Meta(None, None, None, None, None, None)

  datatype AudioParams = AudioParams(duration: int, performer: string, title: string, thumb: Option<string>)

  datatype VideoParams = VideoParams(duration: int, width: int, height: int, thumb: Option<string>)

  /** `send_audio`'s parameters: duration 0, `Unknown Artist` and `Unknown Track` by default. */
  function AudioParamsOf(meta: Option<Meta>): (p: AudioParams)
    ensures meta.None? ==> p == AudioParams(0, "Unknown Artist", "Unknown Track", None)
    ensures meta.Some? ==> p.performer == GetOr(meta.value.artist, "Unknown Artist") && p.thumb == meta.value.thumbnail
  {
    if meta.None? || meta.value == EMPTY_META then AudioParams(0, "Unknown Artist", "Unknown Track", None)
    else AudioParams(GetOr(meta.value.duration, 0), GetOr(meta.value.artist, "Unknown Artist"),
                     GetOr(meta.value.title, "Unknown Track"), meta.value.thumbnail)
  }

  /** `send_video`'s parameters: duration 0 and 1920 by 1080 by default. */
  function VideoParamsOf(meta: Option<Meta>): (p: VideoParams)
    ensures meta.None? ==> p == VideoParams(0, 1920, 1080, None)
    ensures meta.Some? ==> p.width == GetOr(meta.value.width, 1920) && p.height == GetOr(meta.value.height, 1080)
  {
    if meta.None? || meta.value == EMPTY_META then VideoParams(0, 1920, 1080, None)
    else VideoParams(GetOr(meta.value.duration, 0), GetOr(meta.value.width, 1920),
                     GetOr(meta.value.height, 1080), meta.value.thumbnail)
  }

  /** Each key falls back on its own, so metadata with no keys is treated like no metadata. */
  lemma MetaFallbacksPerKey(meta: Meta)
    ensures AudioParamsOf(Some(meta)) ==
              AudioParams(GetOr(meta.duration, 0), GetOr(meta.artist, "Unknown Artist"), GetOr(meta.title, "Unknown Track"), meta.thumbnail)
    ensures VideoParamsOf(Some(meta)) ==
              VideoParams(GetOr(meta.duration, 0), GetOr(meta.width, 1920), GetOr(meta.height, 1080), meta.thumbnail)
    ensures AudioParamsOf(Some(EMPTY_META)) == AudioParamsOf(None)
    ensures VideoParamsOf(Some(EMPTY_META)) == VideoParamsOf(None)
  {
  }

  // ---------------------------------------------------------------------
  // The user record

  /** The parts of an incoming message `fetch_user_details` reads. */
  datatype IncomingMessage = IncomingMessage(id: int, fromId: int, firstName: string, username: Option<string>,
                                             mention: string, chatId: int, replyTo: Option<int>)

  datatype UserDetails = UserDetails(userId: int, name: string, userName: string, replyId: int, chatId: int,
                                     provider: Option<string>, botMsg: Option<int>, link: Option<string>,
                                     override: Option<string>)

  /**
   * `fetch_user_details`: the sender, the message to reply to (the replied
   * message when `reply` is set, else this one) and the chat. `None` stands
   * for the error raised when `reply` is set on a message that replies to
   * nothing.
   */
  function FetchUserDetails(msg: IncomingMessage, reply: bool): (r: Option<UserDetails>)
    ensures r.None? <==> reply && msg.replyTo.None?
    ensures r.Some? ==> r.value.userId == msg.fromId && r.value.chatId == msg.chatId && r.value.botMsg == Some(msg.id)
    ensures r.Some? ==> r.value.replyId == (if reply then msg.replyTo.value else msg.id)
    ensures r.Some? ==> r.value.name == msg.firstName
    ensures r.Some? && Truthy(msg.username) ==> r.value.userName == msg.username.value
    ensures r.Some? && !Truthy(msg.username) ==> r.value.userName == msg.mention
    ensures r.Some? ==> r.value.provider.None? && r.value.link.None? && r.value.override.None?
  {
    if reply && msg.replyTo.None? then None
    else
      Some(UserDetails(msg.fromId, msg.firstName, OrElse(msg.username, msg.mention),
                       if reply then msg.replyTo.value else msg.id, msg.chatId, None, Some(msg.id), None, None))
  }
}
