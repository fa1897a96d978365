/** Notification deduplication: services/notification-service/internal/service/service.go. */
module Dedup {
  import opened Outcomes
  import opened Text

  const DEFAULT_WINDOW := 86_400_000_000_000

  // Keys.

  datatype Event = Event(orderId: string, status: string, channel: string, recipient: string, message: string)

  datatype SendError = Invalid(field: string) | SenderFailed

  function Part(raw: string): string {
    Lower(TrimSpace(raw))
  }

  function NormalizeChannel(channel: string): Result<string, SendError> {
    if Part(channel) == "email" || Part(channel) == "telegram" then Success(Part(channel))
    else Failure(Invalid("channel"))
  }

  function BuildDedupKey(e: Event): string {
    Joined(Part(e.orderId), Part(e.status), Part(e.channel), Part(e.recipient))
  }

  function Joined(a: string, b: string, c: string, d: string): string {
    a + "|" + b + "|" + c + "|" + d
  }

  lemma PartKeepsBarFree(raw: string)
    requires '|' !in raw
    ensures '|' !in Part(raw)
  {
    var lo, hi := TrimShape(raw, IsSpace);
    var t := TrimSpace(raw);
    forall i | 0 <= i < |t| ensures Lower(t)[i] != '|' {
      assert t[i] == raw[lo + i] && raw[lo + i] in raw;
    }
  }

  /** How many separators a text has. */
  function Bars(s: string): nat {
    if s == "" then 0 else Bars(s[..|s| - 1]) + if s[|s| - 1] == '|' then 1 else 0
  }

  lemma {:induction false} BarFree(s: string)
    ensures Bars(s) == 0 <==> '|' !in s
  {
    if s != "" {
      BarFree(s[..|s| - 1]);
      assert s == s[..|s| - 1] + [s[|s| - 1]];
    }
  }

  lemma {:induction false} BarsOfPrefix(s: string, n: nat)
    requires n <= |s|
    ensures Bars(s[..n]) <= Bars(s)
  {
    if n < |s| {
      BarsOfPrefix(s[..|s| - 1], n);
      assert s[..|s| - 1][..n] == s[..n];
    } else {
      assert s[..n] == s;
    }
  }

  /** A field that runs past another field's end takes in the separator there. */
  lemma LongerHasMoreBars(s: string, a: string, b: string)
    requires |a| < |b| <= |s| && a == s[..|a|] && b == s[..|b|] && s[|a|] == '|'
    ensures Bars(a) < Bars(b)
  {
    var ended := s[..|a| + 1];
    assert ended[..|ended| - 1] == a && ended[|ended| - 1] == '|';
    BarsOfPrefix(b, |ended|);
    assert b[..|ended|] == ended;
  }

  /** A first field is recoverable when its number of separators is known. */
  lemma SplitAtBar(a: string, x: string, b: string, y: string)
    requires Bars(a) == Bars(b) && a + "|" + x == b + "|" + y
    ensures a == b && x == y
  {
    var s := a + "|" + x;
    assert s[|a|] == '|' && s == b + "|" + y && s[|b|] == '|';
    assert a == s[..|a|] && b == s[..|b|];
    if |a| < |b| {
      LongerHasMoreBars(s, a, b);
    } else if |b| < |a| {
      LongerHasMoreBars(s, b, a);
    }
    assert x == s[|a| + 1..] && y == s[|b| + 1..];
  }

  lemma JoinedIsInjective(a: string, b: string, c: string, d: string, a': string, b': string, c': string, d': string)
    requires Bars(a) == Bars(a') && Bars(b) == Bars(b') && Bars(c) == Bars(c')
    requires Joined(a, b, c, d) == Joined(a', b', c', d')
    ensures a == a' && b == b' && c == c' && d == d'
  {
    JoinedNests(a, b, c, d);
    JoinedNests(a', b', c', d');
    SplitAtBar(a, b + "|" + (c + "|" + d), a', b' + "|" + (c' + "|" + d'));
    SplitAtBar(b, c + "|" + d, b', c' + "|" + d');
    SplitAtBar(c, d, c', d');
  }

  lemma JoinedNests(a: string, b: string, c: string, d: string)
    ensures Joined(a, b, c, d) == a + "|" + (b + "|" + (c + "|" + d))
  {
  }

  /** The same event for deduplication: equal up to case and outer whitespace. */
  predicate SameEvent(a: Event, b: Event) {
    && Lower(TrimSpace(a.orderId)) == Lower(TrimSpace(b.orderId))
    && Lower(TrimSpace(a.status)) == Lower(TrimSpace(b.status))
    && Lower(TrimSpace(a.channel)) == Lower(TrimSpace(b.channel))
    && Lower(TrimSpace(a.recipient)) == Lower(TrimSpace(b.recipient))
  }

  /** The channels that are accepted, and the name they get. */
  lemma ChannelOutcome(channel: string)
    ensures
      var name := Lower(TrimSpace(channel));
      && (name == "email" ==> NormalizeChannel(channel) == Success("email"))
      && (name == "telegram" ==> NormalizeChannel(channel) == Success("telegram"))
      && (name != "email" && name != "telegram" ==> NormalizeChannel(channel) == Failure(Invalid("channel")))
  {
  }

  /** The key is the four fields in this order, each in lower case without outer whitespace. */
  lemma KeyOutcome(e: Event)
    ensures
      BuildDedupKey(e) ==
        Lower(TrimSpace(e.orderId)) + "|" + Lower(TrimSpace(e.status)) + "|" +
        Lower(TrimSpace(e.channel)) + "|" + Lower(TrimSpace(e.recipient))
  {
  }

  /** The first field that makes an event invalid; the channel's name is checked before the recipient. */
  function FirstInvalid(e: Event): Option<string> {
    if TrimSpace(e.orderId) == "" then Some("order_id")
    else if TrimSpace(e.status) == "" then Some("status")
    else if TrimSpace(e.channel) == "" || Lower(TrimSpace(e.channel)) !in {"email", "telegram"} then Some("channel")
    else if TrimSpace(e.recipient) == "" then Some("recipient")
    else if TrimSpace(e.message) == "" then Some("message")
    else None
  }

  /** Two accepted events with one key are the same event exactly if their ids and statuses have equally many bars. */
  lemma EqualKeysIdentifyIff(a: Event, b: Event)
    requires NormalizeChannel(a.channel).Success? && NormalizeChannel(b.channel).Success?
    requires BuildDedupKey(a) == BuildDedupKey(b)
    ensures SameEvent(a, b) <==>
      Bars(Part(a.orderId)) == Bars(Part(b.orderId)) && Bars(Part(a.status)) == Bars(Part(b.status))
  {
    BarFree(Part(a.channel));
    BarFree(Part(b.channel));
    if Bars(Part(a.orderId)) == Bars(Part(b.orderId)) && Bars(Part(a.status)) == Bars(Part(b.status)) {
      JoinedIsInjective(Part(a.orderId), Part(a.status), Part(a.channel), Part(a.recipient),
                        Part(b.orderId), Part(b.status), Part(b.channel), Part(b.recipient));
    }
  }

  /** Events without the separator in order id and status share a key exactly when they are the same event. */
  lemma DedupKeyIdentifiesEvent(a: Event, b: Event)
    requires '|' !in a.orderId && '|' !in a.status && '|' !in b.orderId && '|' !in b.status
    requires NormalizeChannel(a.channel).Success? && NormalizeChannel(b.channel).Success?
    ensures BuildDedupKey(a) == BuildDedupKey(b) <==> SameEvent(a, b)
  {
    if BuildDedupKey(a) == BuildDedupKey(b) {
      PartKeepsBarFree(a.orderId);
      PartKeepsBarFree(b.orderId);
      PartKeepsBarFree(a.status);
      PartKeepsBarFree(b.status);
      BarFree(Part(a.orderId));
      BarFree(Part(b.orderId));
      BarFree(Part(a.status));
      BarFree(Part(b.status));
      EqualKeysIdentifyIff(a, b);
    }
  }

  /** With the separator in an order id, events of different orders can share a key. */
  lemma BarsCollide(e: Event)
    requires e.status == "b|c"
    ensures
      var a, b := e.(orderId := "a"), e.(orderId := "a|b", status := "c");
      BuildDedupKey(a) == BuildDedupKey(b) && Part(a.orderId) != Part(b.orderId)
  {
    PartOfPlain("a");
    PartOfPlain("b|c");
    PartOfPlain("a|b");
    PartOfPlain("c");
    assert "a" + "|" + "b|c" == "a|b" + "|" + "c";
  }

  lemma PartOfPlain(s: string)
    requires s != "" && forall i :: 0 <= i < |s| ==> !IsSpace(s[i]) && LowerChar(s[i]) == s[i]
    ensures Part(s) == s
  {
    TrimBare(s, IsSpace);
    assert Lower(s) == s;
  }

  // The map of reservations.

  function Window(configured: int): (w: int)
    ensures w > 0
    ensures configured > 0 ==> w == configured
    ensures configured <= 0 ==> w == 24 * 60 * 60 * 1_000_000_000
  {
    if configured <= 0 then DEFAULT_WINDOW else configured
  }

  /** The entries younger than the window. */
  function Young(sentAt: map<string, int>, now: int, window: int): map<string, int> {
    map k | k in sentAt && now - sentAt[k] < window :: sentAt[k]
  }

  /** An event can be sent if its channel is known and nothing is blank. */
  lemma SendableIff(e: Event)
    ensures FirstInvalid(e).None? <==>
      && !Blank(e.orderId) && !Blank(e.status) && !Blank(e.recipient) && !Blank(e.message)
      && Lower(TrimSpace(e.channel)) in {"email", "telegram"}
  {
    TrimmedIsBlank(e.orderId);
    TrimmedIsBlank(e.status);
    TrimmedIsBlank(e.recipient);
    TrimmedIsBlank(e.message);
  }

  /** A key is accepted if it has no young entry; then it gets one, and of the others the young ones stay. */
  lemma ReserveOutcome(sentAt: map<string, int>, key: string, now: int, window: int)
    ensures
      var (sentAt', accepted) := Reserve(sentAt, key, now, window);
      && (accepted <==> !(key in sentAt && now - sentAt[key] < window))
      && (accepted ==> key in sentAt' && sentAt'[key] == now)
      && forall k :: k != key || !accepted ==>
           && (k in sentAt' <==> k in sentAt && now - sentAt[k] < window)
           && (k in sentAt' ==> sentAt'[k] == sentAt[k])
  {
  }

  /** A reservation: clean up, then refuse a key that is still there or take it. */
  function Reserve(sentAt: map<string, int>, key: string, now: int, window: int): (map<string, int>, bool) {
    var kept := Young(sentAt, now, window);
    if key in kept then (kept, false) else (kept[key := now], true)
  }

  class NotificationService {
    var dedupWindow: int
    var dedupSentAt: map<string, int>

    constructor ()
      ensures dedupWindow == DEFAULT_WINDOW && dedupSentAt == map[]
    {
      dedupWindow, dedupSentAt := DEFAULT_WINDOW, map[];
    }

    method SetDedupWindow(window: int)
      modifies this`dedupWindow
      ensures dedupWindow > 0
      ensures window > 0 ==> dedupWindow == window
      ensures window <= 0 ==> dedupWindow == 24 * 60 * 60 * 1_000_000_000
    {
      dedupWindow := if window <= 0 then DEFAULT_WINDOW else window;
    }

    /** Map iteration order is arbitrary. */
    method CleanupExpiredDedup(now: int, window: int)
      modifies this`dedupSentAt
      ensures dedupSentAt == Young(old(dedupSentAt), now, window)
    {
      var left := dedupSentAt.Keys;
      while left != {}
        invariant left <= old(dedupSentAt).Keys
        invariant dedupSentAt == map k | k in old(dedupSentAt) &&
                    (k in left || now - old(dedupSentAt)[k] < window) :: old(dedupSentAt)[k]
        decreases |left|
      {
        var key :| key in left;
        if now - dedupSentAt[key] >= window {
          dedupSentAt := dedupSentAt - {key};
        }
        left := left - {key};
      }
    }

    method ReserveDedupKey(key: string, now: int) returns (accepted: bool)
      modifies this`dedupSentAt
      ensures (dedupSentAt, accepted) == Reserve(old(dedupSentAt), key, now, Window(dedupWindow))
    {
      var window := dedupWindow;
      if window <= 0 { window := DEFAULT_WINDOW; }
      CleanupExpiredDedup(now, window);
      if key in dedupSentAt {
        if now - dedupSentAt[key] < window {
          return false;
        }
      }
      dedupSentAt := dedupSentAt[key := now];
      accepted := true;
    }

    method ReleaseDedupKey(key: string)
      modifies this`dedupSentAt
      ensures dedupSentAt == old(dedupSentAt) - {key}
    {
      dedupSentAt := dedupSentAt - {key};
    }

    /** `senderFails` is what the sender answers if it is asked; `sent` is what it was asked to send. */
    method Send(e: Event, now: int, senderFails: bool) returns (error: Option<SendError>, sent: Option<Event>)
      modifies this`dedupSentAt
      ensures
        var (reserved, accepted) := Reserve(old(dedupSentAt), BuildDedupKey(e), now, Window(dedupWindow));
        if FirstInvalid(e).Some? then
          error == Some(Invalid(FirstInvalid(e).value)) && sent == None && dedupSentAt == old(dedupSentAt)
        else
          && sent == (if accepted then Some(e.(channel := Lower(TrimSpace(e.channel)))) else None)
          && error == (if accepted && senderFails then Some(SenderFailed) else None)
          && dedupSentAt == if accepted && senderFails then reserved - {BuildDedupKey(e)} else reserved
    {
      sent := None;
      if TrimSpace(e.orderId) == "" { return Some(Invalid("order_id")), None; }
      if TrimSpace(e.status) == "" { return Some(Invalid("status")), None; }
      if TrimSpace(e.channel) == "" { return Some(Invalid("channel")), None; }
      var channel := NormalizeChannel(e.channel);
      if channel.Failure? { return Some(channel.error), None; }
      var event := e.(channel := channel.value);
      if TrimSpace(event.recipient) == "" { return Some(Invalid("recipient")), None; }
      if TrimSpace(event.message) == "" { return Some(Invalid("message")), None; }
      PartOfNormalized(e.channel);
      var dedupKey := BuildDedupKey(event);
      var accepted := ReserveDedupKey(dedupKey, now);
      if !accepted { return None, None; }
      sent := Some(event);
      if senderFails {
        ReleaseDedupKey(dedupKey);
        return Some(SenderFailed), Some(event);
      }
      error := None;
    }
  }

  lemma PartOfNormalized(channel: string)
    requires NormalizeChannel(channel).Success?
    ensures Part(NormalizeChannel(channel).value) == Part(channel)
  {
    var name := Part(channel);
    TrimBare(name, IsSpace);
    assert Lower(name) == name;
  }
}
