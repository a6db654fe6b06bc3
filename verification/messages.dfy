/**
 * The selection logic of the two message readers of telegram.js,
 * `getUnreadMessages` and `getRecentMessages`. What the telegram client
 * returns is an input: the dialogs `getDialogs` listed, each with its message
 * history (newest first) and whether fetching its messages fails.
 */
module Messages {
  import opened Wrappers

  /** At most this many unread dialogs have their messages fetched. */
  const UNREAD_DIALOG_LIMIT: nat := 15
  /** No unread dialog has more than this many messages fetched. */
  const UNREAD_FETCH_CAP: int := 20
  /** The fetch limit used when a dialog has no unread count. */
  const UNREAD_DEFAULT_FETCH: int := 5
  /** How many messages per dialog the recent reader fetches. */
  const RECENT_FETCH_LIMIT: int := 50
  const SECONDS_PER_DAY: int := 24 * 60 * 60

  datatype Message = Message(id: string, text: string, date: int, senderId: string, out: bool)

  /**
   * A dialog as `getDialogs` returns it. An absent `unreadCount` is 0, which
   * is what both `unreadCount || 0` and `unreadCount || 5` read it as.
   */
  datatype Dialog = Dialog(
    id: string,
    title: string,
    unreadCount: int,
    isGroup: bool,
    isChannel: bool,
    history: seq<Message>,
    fetchFails: bool)

  function Min(a: int, b: int): int
  {
    if a <= b then a else b
  }

  /** `client.getMessages(dialog.entity, { limit })`: the newest `limit` messages, or a thrown error. */
  function GetMessages(d: Dialog, limit: int): (r: Option<seq<Message>>)
    ensures r.Some? <==> !d.fetchFails
    ensures r.Some? && limit > 0 ==> |r.value| <= limit
    ensures r.Some? && limit <= 0 ==> r.value == []
    ensures r.Some? ==> r.value <= d.history
  {
    if d.fetchFails then None
    else if limit <= 0 then Some([])
    else Some(d.history[..Min(limit, |d.history|)])
  }

  // ---------------------------------------------------------------- unread

  /** One element of the `unread` array. */
  datatype UnreadEntry = UnreadEntry(dialogId: string, dialogTitle: string, isGroup: bool, isChannel: bool, messages: seq<Message>)

  /** `dialogs.filter((d) => (d.unreadCount || 0) > 0)`. */
  function UnreadDialogs(ds: seq<Dialog>): (r: seq<Dialog>)
    ensures |r| <= |ds|
    ensures forall d :: d in r <==> d in ds && d.unreadCount > 0
  {
    if ds == [] then []
    else (if ds[0].unreadCount > 0 then [ds[0]] else []) + UnreadDialogs(ds[1..])
  }

  /**
   * The filter keeps order and multiplicity: filtering a concatenation is
   * concatenating the filtered parts. With `UnreadDialogsSingle`, the first
   * fifteen of the result are the first fifteen unread dialogs in listing order.
   */
  lemma {:induction false} UnreadDialogsDistributes(a: seq<Dialog>, b: seq<Dialog>)
    ensures UnreadDialogs(a + b) == UnreadDialogs(a) + UnreadDialogs(b)
    decreases |a|
  {
    if a == [] {
      assert a + b == b;
    } else {
      assert (a + b)[0] == a[0];
      assert (a + b)[1..] == a[1..] + b;
      UnreadDialogsDistributes(a[1..], b);
    }
  }

  /** One dialog is kept exactly when it has unread messages. */
  lemma UnreadDialogsSingle(d: Dialog)
    ensures UnreadDialogs([d]) == if d.unreadCount > 0 then [d] else []
  {
    assert [d][1..] == [];
  }

  /** `Math.min(dialog.unreadCount || 5, 20)`. */
  function FetchLimit(d: Dialog): (n: int)
    ensures n <= UNREAD_FETCH_CAP
    ensures d.unreadCount > 0 ==> 0 < n <= d.unreadCount && (n == d.unreadCount || n == UNREAD_FETCH_CAP)
    ensures d.unreadCount == 0 ==> n == UNREAD_DEFAULT_FETCH
  {
    Min(if d.unreadCount != 0 then d.unreadCount else UNREAD_DEFAULT_FETCH, UNREAD_FETCH_CAP)
  }

  /** What the loop body pushes for one dialog: one entry, or nothing when the fetch throws. */
  function EntryFor(d: Dialog): (r: seq<UnreadEntry>)
    ensures |r| <= 1
    ensures |r| == 1 <==> !d.fetchFails
    ensures r != [] ==> r[0].dialogId == d.id && r[0].messages <= d.history
  {
    match GetMessages(d, FetchLimit(d))
    case None => []
    case Some(ms) => [UnreadEntry(d.id, d.title, d.isGroup, d.isChannel, ms)]
  }

  /** The entries pushed for `batch`, in order. */
  function UnreadEntries(batch: seq<Dialog>): seq<UnreadEntry>
  {
    if batch == [] then [] else UnreadEntries(batch[..|batch| - 1]) + EntryFor(batch[|batch| - 1])
  }

  /**
   * The entries follow the dialogs: those of a concatenation are those of
   * its parts, in order, each dialog contributing its own `EntryFor`.
   */
  lemma {:induction false} UnreadEntriesDistributes(a: seq<Dialog>, b: seq<Dialog>)
    ensures UnreadEntries(a + b) == UnreadEntries(a) + UnreadEntries(b)
    decreases |b|
  {
    if b == [] {
      assert a + b == a;
    } else {
      var init := b[..|b| - 1];
      assert (a + b)[..|a + b| - 1] == a + init;
      assert (a + b)[|a + b| - 1] == b[|b| - 1];
      UnreadEntriesDistributes(a, init);
    }
  }

  /**
   * Over dialogs that have unread messages, there is at most one entry per
   * dialog, and each entry holds messages of its own dialog, at most its
   * unread count and at most twenty of them.
   */
  lemma {:induction false} UnreadEntriesBounded(batch: seq<Dialog>)
    requires forall d :: d in batch ==> d.unreadCount > 0
    ensures |UnreadEntries(batch)| <= |batch|
    ensures forall e :: e in UnreadEntries(batch) ==>
      && |e.messages| <= UNREAD_FETCH_CAP
      && exists d :: d in batch && e.dialogId == d.id && |e.messages| <= d.unreadCount
                     && e.messages <= d.history
  {
    if batch != [] {
      var init, last := batch[..|batch| - 1], batch[|batch| - 1];
      assert forall d :: d in init ==> d in batch;
      UnreadEntriesBounded(init);
      forall e | e in EntryFor(last)
        ensures |e.messages| <= UNREAD_FETCH_CAP
        ensures exists d :: d in batch && e.dialogId == d.id && |e.messages| <= d.unreadCount
                            && e.messages <= d.history
      {
        assert last in batch;
      }
    }
  }

  /**
   * `getUnreadMessages`: fetches the first fifteen dialogs with unread
   * messages, skipping any whose fetch throws, and counts every dialog with
   * unread messages, fetched or not.
   */
  method GetUnreadMessages(dialogs: seq<Dialog>) returns (unread: seq<UnreadEntry>, totalUnreadDialogs: nat)
    ensures totalUnreadDialogs == |UnreadDialogs(dialogs)|
    ensures |unread| <= UNREAD_DIALOG_LIMIT && |unread| <= totalUnreadDialogs
    ensures unread == UnreadEntries(UnreadDialogs(dialogs)[..Min(UNREAD_DIALOG_LIMIT, totalUnreadDialogs)])
    ensures forall e :: e in unread ==>
      && |e.messages| <= UNREAD_FETCH_CAP
      && exists d :: d in dialogs && d.unreadCount > 0 && e.dialogId == d.id && |e.messages| <= d.unreadCount
                     && e.messages <= d.history
  {
    var unreadDialogs := UnreadDialogs(dialogs);
    var batch := unreadDialogs[..Min(UNREAD_DIALOG_LIMIT, |unreadDialogs|)];
    unread := [];
    var i := 0;
    while i < |batch|
      invariant 0 <= i <= |batch|
      invariant unread == UnreadEntries(batch[..i])
    {
      var d := batch[i];
      var fetched := GetMessages(d, FetchLimit(d));
      if fetched.Some? {
        unread := unread + [UnreadEntry(d.id, d.title, d.isGroup, d.isChannel, fetched.value)];
      }
      assert batch[..i + 1][..i] == batch[..i];
      i := i + 1;
    }
    assert batch[..i] == batch;
    totalUnreadDialogs := |unreadDialogs|;
    assert forall d :: d in batch ==> d in unreadDialogs;
    UnreadEntriesBounded(batch);
  }

  // ---------------------------------------------------------------- recent

  /** One element of the `messages` array of the recent reader; `date` is in seconds. */
  datatype RecentMessage = RecentMessage(
    id: string,
    text: string,
    date: int,
    dialogId: string,
    dialogTitle: string,
    isGroup: bool,
    isChannel: bool,
    senderId: string,
    isOutgoing: bool)

  /**
   * `Math.floor(Date.now() / 1000) - days * 24 * 60 * 60`: the start, in
   * seconds, of the window of `days` days that ends at `nowMs` milliseconds.
   */
  function Cutoff(nowMs: int, days: int): (c: int)
    ensures (c + days * SECONDS_PER_DAY) * 1000 <= nowMs < (c + days * SECONDS_PER_DAY + 1) * 1000
  {
    nowMs / 1000 - days * SECONDS_PER_DAY
  }

  /** Broadcast channels (channels that are not groups) are skipped. */
  predicate Skipped(d: Dialog)
  {
    d.isChannel && !d.isGroup
  }

  /** `msg.date && msg.date >= cutoffDate`: a zero date never qualifies. */
  predicate InWindow(m: Message, cutoff: int)
  {
    m.date != 0 && m.date >= cutoff
  }

  function Project(d: Dialog, m: Message): RecentMessage
  {
    RecentMessage(m.id, m.text, m.date, d.id, d.title, d.isGroup, d.isChannel, m.senderId, m.out)
  }

  /** What the inner loop pushes for the messages `ms` of dialog `d`. */
  function KeepRecent(d: Dialog, ms: seq<Message>, cutoff: int): (r: seq<RecentMessage>)
    ensures |r| <= |ms|
    ensures forall x :: x in r ==> x.date != 0 && x.date >= cutoff && x.dialogId == d.id
    ensures forall x :: x in r ==> exists m :: m in ms && InWindow(m, cutoff) && x == Project(d, m)
  {
    if ms == [] then []
    else
      var last := ms[|ms| - 1];
      KeepRecent(d, ms[..|ms| - 1], cutoff) + (if InWindow(last, cutoff) then [Project(d, last)] else [])
  }

  /** What the outer loop pushes for one dialog. */
  function DialogRecent(d: Dialog, cutoff: int): seq<RecentMessage>
  {
    if Skipped(d) then []
    else match GetMessages(d, RECENT_FETCH_LIMIT)
      case None => []
      case Some(ms) => KeepRecent(d, ms, cutoff)
  }

  /**
   * `x` is the projection of an in-window message among the first fifty
   * fetched from `d`, a dialog that is not a broadcast channel and whose
   * fetch succeeds.
   */
  ghost predicate SelectedFrom(x: RecentMessage, d: Dialog, cutoff: int)
  {
    && !Skipped(d)
    && !d.fetchFails
    && exists m :: m in d.history[..Min(RECENT_FETCH_LIMIT, |d.history|)] && InWindow(m, cutoff) && x == Project(d, m)
  }

  /** Everything pushed into `allMessages` for the dialogs `ds`, before sorting. */
  function RecentCandidates(ds: seq<Dialog>, cutoff: int): (r: seq<RecentMessage>)
    ensures forall x :: x in r ==> x.date != 0 && x.date >= cutoff
    ensures forall x :: x in r ==> exists d :: d in ds && SelectedFrom(x, d, cutoff)
  {
    if ds == [] then []
    else
      var init, last := ds[..|ds| - 1], ds[|ds| - 1];
      var r := RecentCandidates(init, cutoff) + DialogRecent(last, cutoff);
      assert forall d :: d in init ==> d in ds;
      assert forall x :: x in DialogRecent(last, cutoff) ==> SelectedFrom(x, last, cutoff);
      r
  }

  /** Every qualifying message among the first fifty of a dialog is kept. */
  lemma {:induction false} KeepRecentComplete(d: Dialog, ms: seq<Message>, cutoff: int, j: int)
    requires 0 <= j < |ms| && InWindow(ms[j], cutoff)
    ensures Project(d, ms[j]) in KeepRecent(d, ms, cutoff)
    decreases |ms|
  {
    if j < |ms| - 1 {
      KeepRecentComplete(d, ms[..|ms| - 1], cutoff, j);
    }
  }

  /**
   * Completeness of the selection: a message among the first fifty fetched
   * from a dialog that is not a broadcast channel and whose fetch succeeds is
   * selected when its date is in the window.
   */
  lemma {:induction false} RecentCandidatesComplete(ds: seq<Dialog>, cutoff: int, i: int, j: int)
    requires 0 <= i < |ds| && !Skipped(ds[i]) && !ds[i].fetchFails
    requires 0 <= j < Min(RECENT_FETCH_LIMIT, |ds[i].history|) && InWindow(ds[i].history[j], cutoff)
    ensures Project(ds[i], ds[i].history[j]) in RecentCandidates(ds, cutoff)
    decreases |ds|
  {
    if i == |ds| - 1 {
      var ms := GetMessages(ds[i], RECENT_FETCH_LIMIT).value;
      assert ms[j] == ds[i].history[j];
      KeepRecentComplete(ds[i], ms, cutoff, j);
    } else {
      RecentCandidatesComplete(ds[..|ds| - 1], cutoff, i, j);
    }
  }

  /** `b.date - a.date` as a comparator: newest first. */
  predicate NewestFirst(s: seq<RecentMessage>)
  {
    forall i, j :: 0 <= i < j < |s| ==> s[i].date >= s[j].date
  }

  /** A newest-first sequence stays newest first under a head no older than its first element. */
  lemma ConsNewestFirst(h: RecentMessage, t: seq<RecentMessage>)
    requires NewestFirst(t)
    requires t != [] ==> h.date >= t[0].date
    ensures NewestFirst([h] + t)
  {
  }

  /** Places `x` before the first element that is not newer than it. */
  function InsertByDate(x: RecentMessage, s: seq<RecentMessage>): (r: seq<RecentMessage>)
    requires NewestFirst(s)
    ensures NewestFirst(r)
    ensures multiset(r) == multiset(s) + multiset{x}
    ensures |r| == |s| + 1
    ensures r[0] == x || (s != [] && r[0] == s[0])
  {
    if s == [] || x.date >= s[0].date then
      ConsNewestFirst(x, s);
      assert multiset([x] + s) == multiset{x} + multiset(s);
      [x] + s
    else
      var rest := InsertByDate(x, s[1..]);
      ConsNewestFirst(s[0], rest);
      assert s == [s[0]] + s[1..];
      assert multiset(s) == multiset{s[0]} + multiset(s[1..]);
      assert multiset([s[0]] + rest) == multiset{s[0]} + multiset(rest);
      [s[0]] + rest
  }

  /** The messages of `s` dated `t`, in their order in `s`. */
  function DatedAt(s: seq<RecentMessage>, t: int): seq<RecentMessage>
  {
    if s == [] then [] else (if s[0].date == t then [s[0]] else []) + DatedAt(s[1..], t)
  }

  /** Inserting `x` puts it before every message of its own date already in `s`. */
  lemma {:induction false} InsertByDateStable(x: RecentMessage, s: seq<RecentMessage>, t: int)
    requires NewestFirst(s)
    ensures DatedAt(InsertByDate(x, s), t) == (if x.date == t then [x] else []) + DatedAt(s, t)
  {
    if s == [] || x.date >= s[0].date {
      DatedAtCons(x, s, t);
    } else {
      var rest := InsertByDate(x, s[1..]);
      InsertByDateStable(x, s[1..], t);
      DatedAtCons(s[0], rest, t);
      DatedAtCons(s[0], s[1..], t);
      assert [s[0]] + s[1..] == s;
      // `x` is strictly older than `s[0]`, so at most one of them is dated `t`.
      if x.date == t {
        assert DatedAt(s, t) == DatedAt(s[1..], t);
      }
    }
  }

  lemma DatedAtCons(y: RecentMessage, s: seq<RecentMessage>, t: int)
    ensures DatedAt([y] + s, t) == (if y.date == t then [y] else []) + DatedAt(s, t)
  {
    assert ([y] + s)[1..] == s;
  }

  /**
   * The sort is stable: for every date, the messages of that date keep the
   * order in which they were pushed, as the stable `Array.prototype.sort` keeps them.
   */
  lemma {:induction false} SortNewestFirstStable(s: seq<RecentMessage>, t: int)
    ensures DatedAt(SortNewestFirst(s), t) == DatedAt(s, t)
  {
    if s != [] {
      SortNewestFirstStable(s[1..], t);
      InsertByDateStable(s[0], SortNewestFirst(s[1..]), t);
    }
  }

  /** `allMessages.sort((a, b) => b.date - a.date)`: a newest-first permutation of its input. */
  function SortNewestFirst(s: seq<RecentMessage>): (r: seq<RecentMessage>)
    ensures NewestFirst(r)
    ensures multiset(r) == multiset(s)
  {
    if s == [] then []
    else
      assert s == [s[0]] + s[1..];
      InsertByDate(s[0], SortNewestFirst(s[1..]))
  }

  lemma KeepRecentStep(d: Dialog, ms: seq<Message>, j: int, cutoff: int)
    requires 0 <= j < |ms|
    ensures KeepRecent(d, ms[..j + 1], cutoff)
         == KeepRecent(d, ms[..j], cutoff) + (if InWindow(ms[j], cutoff) then [Project(d, ms[j])] else [])
  {
    assert ms[..j + 1][..j] == ms[..j];
  }

  lemma RecentCandidatesStep(ds: seq<Dialog>, i: int, cutoff: int)
    requires 0 <= i < |ds|
    ensures RecentCandidates(ds[..i + 1], cutoff) == RecentCandidates(ds[..i], cutoff) + DialogRecent(ds[i], cutoff)
  {
    assert ds[..i + 1][..i] == ds[..i];
  }

  /** Any rearrangement of the selection holds only selected messages. */
  lemma PermutationKeepsOrigin(s: seq<RecentMessage>, ds: seq<Dialog>, cutoff: int)
    requires multiset(s) == multiset(RecentCandidates(ds, cutoff))
    ensures forall x :: x in s ==> exists d :: d in ds && SelectedFrom(x, d, cutoff)
  {
    forall x | x in s ensures exists d :: d in ds && SelectedFrom(x, d, cutoff) {
      var all := RecentCandidates(ds, cutoff);
      assert x in multiset(all);
      assert x in all;
    }
  }

  /** What sorting the selection keeps: the window, each message's origin and the order among equal dates. */
  lemma SortedSelection(ds: seq<Dialog>, cutoff: int, all: seq<RecentMessage>, s: seq<RecentMessage>)
    requires all == RecentCandidates(ds, cutoff)
    requires s == SortNewestFirst(all)
    ensures forall x :: x in s ==> x.date != 0 && x.date >= cutoff
    ensures forall x :: x in s ==> exists d :: d in ds && SelectedFrom(x, d, cutoff)
    ensures forall t :: DatedAt(s, t) == DatedAt(all, t)
  {
    forall x | x in s
      ensures x.date != 0 && x.date >= cutoff
    {
      assert x in multiset(s);
    }
    PermutationKeepsOrigin(s, ds, cutoff);
    forall t
      ensures DatedAt(s, t) == DatedAt(all, t)
    {
      SortNewestFirstStable(all, t);
    }
  }

  /** The loop over one dialog's fetched messages: pushes each in-window one, projected, in order. */
  method KeepRecentLoop(d: Dialog, ms: seq<Message>, cutoff: int) returns (kept: seq<RecentMessage>)
    ensures kept == KeepRecent(d, ms, cutoff)
  {
    kept := [];
    var j := 0;
    while j < |ms|
      invariant 0 <= j <= |ms|
      invariant kept == KeepRecent(d, ms[..j], cutoff)
    {
      if InWindow(ms[j], cutoff) {
        kept := kept + [Project(d, ms[j])];
      }
      KeepRecentStep(d, ms, j, cutoff);
      j := j + 1;
    }
    assert ms[..j] == ms;
  }

  /** The loop over the dialogs: collects every selected message in visiting order. */
  method CollectRecent(dialogs: seq<Dialog>, cutoff: int) returns (all: seq<RecentMessage>)
    ensures all == RecentCandidates(dialogs, cutoff)
  {
    all := [];
    var i := 0;
    while i < |dialogs|
      invariant 0 <= i <= |dialogs|
      invariant all == RecentCandidates(dialogs[..i], cutoff)
    {
      var d := dialogs[i];
      ghost var before := all;
      if !Skipped(d) {
        var fetched := GetMessages(d, RECENT_FETCH_LIMIT);
        if fetched.Some? {
          var kept := KeepRecentLoop(d, fetched.value, cutoff);
          all := all + kept;
        }
      }
      assert all == before + DialogRecent(d, cutoff);
      RecentCandidatesStep(dialogs, i, cutoff);
      i := i + 1;
    }
    assert dialogs[..i] == dialogs;
  }

  /**
   * `getRecentMessages`: selects, from every dialog but broadcast channels,
   * the fetched messages dated within the last `days` days, and returns them
   * newest first with their count.
   */
  method GetRecentMessages(dialogs: seq<Dialog>, nowMs: int, days: int)
    returns (messages: seq<RecentMessage>, totalCount: nat, cutoffDate: int)
    ensures cutoffDate == Cutoff(nowMs, days)
    ensures NewestFirst(messages)
    ensures multiset(messages) == multiset(RecentCandidates(dialogs, cutoffDate))
    ensures forall x :: x in messages ==> x.date != 0 && x.date >= cutoffDate
    ensures forall x :: x in messages ==> exists d :: d in dialogs && SelectedFrom(x, d, cutoffDate)
    ensures forall t :: DatedAt(messages, t) == DatedAt(RecentCandidates(dialogs, cutoffDate), t)
    ensures totalCount == |messages|
  {
    cutoffDate := nowMs / 1000 - days * SECONDS_PER_DAY;
    var all := CollectRecent(dialogs, cutoffDate);
    messages := SortNewestFirst(all);
    totalCount := |messages|;
    SortedSelection(dialogs, cutoffDate, all, messages);
  }
}
