/**
  The message-handling logic the three tray front ends share once their GUI
  calls are set aside (linkover/tray_mac.py, linkover/tray_linux.py and
  linkover/tray.py carry identical copies): which text is a link, what a
  notification shows, the bounded list of recent messages, the effects one
  message has, and the entries of the "recent" part of the menu.
 */
module Links {
  import opened Text
  import opened Messages
  import opened Config

  /** `_MAX_RECENT`: the recent list is a deque with this `maxlen`. */
  const MaxRecent: nat := 10
  /** Menu labels are cut to this many characters. */
  const LabelWidth: nat := 60
  const DefaultTitle: string := "Linkover"
  const NoLabel: string := "Unknown"
  const Placeholder: string := "No links yet"

  // ----- links and text ---------------------------------------------------

  /** `_is_url`: the text starts with one of the two web schemes, in lower case. */
  predicate IsUrl(t: string)
  {
    StartsWith(t, "http://") || StartsWith(t, "https://")
  }

  /** A link is never empty, so Python's `if target` is the same as `target is not None`. */
  lemma {:induction false} UrlIsLong(t: string)
    requires IsUrl(t)
    ensures |t| >= 7 && t[..4] == "http"
  {
    if StartsWith(t, "https://") {
      assert t[..4] == t[..8][..4];
    } else {
      assert t[..4] == t[..7][..4];
    }
  }

  /** A link is `http`, an optional `s`, then `://`, and whatever follows. */
  lemma {:induction false} UrlScheme(t: string)
    ensures IsUrl(t) <==>
      |t| >= 4 && t[..4] == "http" && (StartsWith(t[4..], "://") || StartsWith(t[4..], "s://"))
  {
    if StartsWith(t, "http://") {
      assert t[..4] == t[..7][..4] && t[4..][..3] == t[..7][4..];
    }
    if StartsWith(t, "https://") {
      assert t[..4] == t[..8][..4] && t[4..][..4] == t[..8][4..];
    }
    if |t| >= 4 && t[..4] == "http" && StartsWith(t[4..], "://") {
      assert t[..7] == t[..4] + t[4..][..3];
    }
    if |t| >= 4 && t[..4] == "http" && StartsWith(t[4..], "s://") {
      assert t[..8] == t[..4] + t[4..][..4];
    }
  }

  /** The scheme test is exact: no other scheme, no upper case, no missing slash. */
  lemma {:induction false} UrlExamples()
    ensures IsUrl("https://example.com") && IsUrl("http://x")
    ensures !IsUrl("HTTPS://example.com") && !IsUrl("ftp://example.com")
    ensures !IsUrl("http:/x") && !IsUrl("www.example.com") && !IsUrl("")
  {
    assert "https://example.com"[..8] == "https://";
    assert "http://x"[..7] == "http://";
    assert "HTTPS://example.com"[0] != "http://"[0];
    assert "ftp://example.com"[0] != "http://"[0];
    assert "http:/x"[6] != "http://"[6];
    assert "www.example.com"[0] != "http://"[0];
  }

  /**
    The link a message carries: its `url` when that is a link, otherwise its
    body when that is one, otherwise none.
   */
  function Target(m: Msg): (r: Option<string>)
    ensures r.Some? <==> IsUrl(m.url) || IsUrl(m.message)
    ensures r.Some? ==> IsUrl(r.value) && r.value != ""
    ensures IsUrl(m.url) ==> r == Some(m.url)
    ensures !IsUrl(m.url) && IsUrl(m.message) ==> r == Some(m.message)
  {
    if IsUrl(m.url) then
      UrlIsLong(m.url);
      Some(m.url)
    else if IsUrl(m.message) then
      UrlIsLong(m.message);
      Some(m.message)
    else
      None
  }

  /** `target or ""`: the link as text, empty when there is none. */
  function TargetText(m: Msg): string
  {
    if Target(m).Some? then Target(m).value else ""
  }

  /** `url or body`: the notification body is the `url` field unless it is empty. */
  function DisplayBody(m: Msg): (r: string)
    ensures m.url != "" ==> r == m.url
    ensures m.url == "" ==> r == m.message
    ensures r == "" <==> m.url == "" && m.message == ""
  {
    if m.url != "" then m.url else m.message
  }

  /** `title or "Linkover"`: the notification title is never empty. */
  function NotifyTitle(m: Msg): (r: string)
    ensures r != ""
    ensures m.title != "" ==> r == m.title
    ensures m.title == "" ==> r == DefaultTitle
  {
    if m.title != "" then m.title else DefaultTitle
  }

  /** The first non-empty string of `cands`, or the empty string: Python's `a or b or ...`. */
  function FirstNonEmpty(cands: seq<string>): string
  {
    if cands == [] then "" else if cands[0] != "" then cands[0] else FirstNonEmpty(cands[1..])
  }

  /**
    `FirstNonEmpty` is empty exactly when every candidate is, and otherwise is
    the candidate at the first non-empty position.
   */
  lemma {:induction false} FirstNonEmptyIs(cands: seq<string>)
    ensures FirstNonEmpty(cands) == "" <==> forall i :: 0 <= i < |cands| ==> cands[i] == ""
    ensures FirstNonEmpty(cands) != "" ==>
      exists i :: 0 <= i < |cands| && cands[i] == FirstNonEmpty(cands) && forall j :: 0 <= j < i ==> cands[j] == ""
  {
    if cands != [] && cands[0] == "" {
      var rest := cands[1..];
      FirstNonEmptyIs(rest);
      assert forall i :: 1 <= i < |cands| ==> cands[i] == rest[i - 1];
      if FirstNonEmpty(rest) != "" {
        var i :| 0 <= i < |rest| && rest[i] == FirstNonEmpty(rest) && forall j :: 0 <= j < i ==> rest[j] == "";
        assert cands[i + 1] == FirstNonEmpty(cands);
      }
    } else if cands != [] {
      assert cands[0] == FirstNonEmpty(cands);
    }
  }

  /**
    A menu label: the title, else the link, else the body, else "Unknown",
    cut to `LabelWidth` characters. It is never empty.
   */
  function Label(m: Msg): (r: string)
    ensures 0 < |r| <= LabelWidth
  {
    var full :=
      if m.title != "" then m.title
      else if Target(m).Some? then Target(m).value
      else if m.message != "" then m.message
      else NoLabel;
    Take(full, LabelWidth)
  }

  /** The label is the first non-empty of title, link, body and "Unknown", cut to `LabelWidth`. */
  lemma {:induction false} LabelIsFirstNonEmpty(m: Msg)
    ensures Label(m) == Take(FirstNonEmpty([m.title, TargetText(m), m.message, NoLabel]), LabelWidth)
  {
    var cands := [m.title, TargetText(m), m.message, NoLabel];
    var c1, c2, c3 := cands[1..], cands[2..], cands[3..];
    assert c1[1..] == c2 && c2[1..] == c3 && c3 == [NoLabel];
    assert FirstNonEmpty(c3) == NoLabel;
    assert FirstNonEmpty(c2) == if m.message != "" then m.message else NoLabel;
    assert FirstNonEmpty(c1) == if TargetText(m) != "" then TargetText(m) else FirstNonEmpty(c2);
  }

  /** A label is a prefix of the title whenever the title is set, and the whole title when it is short. */
  lemma {:induction false} LabelOfTitled(m: Msg)
    requires m.title != ""
    ensures StartsWith(m.title, Label(m))
    ensures |m.title| <= LabelWidth ==> Label(m) == m.title
    ensures |m.title| > LabelWidth ==> Label(m) == m.title[..LabelWidth]
  {
    LabelIsFirstNonEmpty(m);
    var cands := [m.title, TargetText(m), m.message, NoLabel];
    assert FirstNonEmpty(cands) == m.title;
  }

  // ----- the recent list --------------------------------------------------

  /**
    `_recent.appendleft(msg)` on a deque of `maxlen` `MaxRecent`: the message
    goes in front, the list keeps its order behind it, and the oldest entry is
    dropped when the list was full.
   */
  function PushRecent(recent: seq<Msg>, m: Msg): (r: seq<Msg>)
    ensures |r| == if |recent| < MaxRecent then |recent| + 1 else MaxRecent
    ensures r[0] == m
    ensures r[1..] == recent[..|r| - 1]
  {
    var r := Take([m] + recent, MaxRecent);
    assert r[1..] == ([m] + recent)[1..|r|];
    r
  }

  /** The recent list after handling `ms` one after the other. */
  function PushAll(recent: seq<Msg>, ms: seq<Msg>): seq<Msg>
  {
    if ms == [] then recent else PushRecent(PushAll(recent, ms[..|ms| - 1]), ms[|ms| - 1])
  }

  /**
    Handling a batch leaves the newest messages in front, newest first: the
    batch reversed, then the old list, cut to `MaxRecent`.
   */
  lemma {:induction false} PushAllIs(recent: seq<Msg>, ms: seq<Msg>)
    requires ms != []
    ensures PushAll(recent, ms) == Take(Reversed(ms) + recent, MaxRecent)
  {
    var init, m := ms[..|ms| - 1], ms[|ms| - 1];
    assert ms == init + [m];
    ReversedSnoc(init, m);
    if init == [] {
      assert Reversed(ms) == [m];
    } else {
      PushAllIs(recent, init);
      TakeOfTake([m], Reversed(init) + recent, MaxRecent);
      assert [m] + (Reversed(init) + recent) == Reversed(ms) + recent;
    }
  }

  /** The recent list never holds more than `MaxRecent` messages once one is handled. */
  lemma {:induction false} PushAllBounded(recent: seq<Msg>, ms: seq<Msg>)
    requires ms != [] || |recent| <= MaxRecent
    ensures |PushAll(recent, ms)| <= MaxRecent
  {
  }

  /** Position `k` of the recent list holds the `k`-th newest message of the batch. */
  lemma {:induction false} PushAllNewestFirst(recent: seq<Msg>, ms: seq<Msg>, k: nat)
    requires k < |ms| && k < MaxRecent
    ensures k < |PushAll(recent, ms)| && PushAll(recent, ms)[k] == ms[|ms| - 1 - k]
  {
    PushAllIs(recent, ms);
    assert (Reversed(ms) + recent)[k] == Reversed(ms)[k];
  }

  // ----- what handling a message does ---------------------------------------

  /** What the tray does to the outside world. */
  datatype Effect =
    | Notify(title: string, body: string) // a desktop notification
    | OpenUrl(url: string)                // the link is opened in the browser
    | SaveConfig(cfg: Cfg)                // config.save(cfg)

  /** `_handle_message`'s effects: a notification, then the link opened when allowed. */
  function Notice(m: Msg, autoOpen: bool): (r: seq<Effect>)
    ensures |r| == if autoOpen && Target(m).Some? then 2 else 1
    ensures r[0] == Notify(NotifyTitle(m), DisplayBody(m))
    ensures |r| == 2 ==> r[1] == OpenUrl(Target(m).value)
  {
    [Notify(NotifyTitle(m), DisplayBody(m))]
    + (if autoOpen && Target(m).Some? then [OpenUrl(Target(m).value)] else [])
  }

  /** Messages paired with the batch's `is_initial` flag. */
  function Tagged(ms: seq<Msg>, isInitial: bool): (r: seq<(Msg, bool)>)
    ensures |r| == |ms|
  {
    if ms == [] then [] else Tagged(ms[..|ms| - 1], isInitial) + [(ms[|ms| - 1], isInitial)]
  }

  /** Tagging pairs each message, in its place, with the batch's flag. */
  lemma {:induction false} TaggedPointwise(ms: seq<Msg>, isInitial: bool)
    ensures forall k :: 0 <= k < |ms| ==> Tagged(ms, isInitial)[k] == (ms[k], isInitial)
  {
    if ms != [] {
      var init := ms[..|ms| - 1];
      TaggedPointwise(init, isInitial);
      assert forall k :: 0 <= k < |init| ==> ms[k] == init[k];
    }
  }

  /** The messages of a tagged batch. */
  function Untagged(items: seq<(Msg, bool)>): (ms: seq<Msg>)
    ensures |ms| == |items|
  {
    if items == [] then [] else Untagged(items[..|items| - 1]) + [items[|items| - 1].0]
  }

  /** Untagging keeps each message in its place. */
  lemma {:induction false} UntaggedPointwise(items: seq<(Msg, bool)>)
    ensures forall k :: 0 <= k < |items| ==> Untagged(items)[k] == items[k].0
  {
    if items != [] {
      var init := items[..|items| - 1];
      UntaggedPointwise(init);
      assert forall k :: 0 <= k < |init| ==> items[k] == init[k];
    }
  }

  /** Tagging a batch and untagging it again gives back the batch. */
  lemma {:induction false} UntagTagged(ms: seq<Msg>, isInitial: bool)
    ensures Untagged(Tagged(ms, isInitial)) == ms
  {
    TaggedPointwise(ms, isInitial);
    UntaggedPointwise(Tagged(ms, isInitial));
  }

  /**
    The effects of handling a tagged batch in order: each message may open its
    link only when auto-open is on and the message was not part of the
    initial batch.
   */
  function Notices(items: seq<(Msg, bool)>, autoOpen: bool): seq<Effect>
  {
    if items == [] then []
    else
      var last := items[|items| - 1];
      Notices(items[..|items| - 1], autoOpen) + Notice(last.0, autoOpen && !last.1)
  }

  /** Handling one more item appends that item's effects. */
  lemma {:induction false} NoticesSnoc(items: seq<(Msg, bool)>, x: (Msg, bool), autoOpen: bool)
    ensures Notices(items + [x], autoOpen) == Notices(items, autoOpen) + Notice(x.0, autoOpen && !x.1)
  {
    assert (items + [x])[..|items|] == items;
  }

  /**
    One iteration of the trays' `for msg in messages` loop: handling message
    `i` moves the recent list and the effects from those of the first `i`
    messages to those of the first `i + 1`.
   */
  lemma {:induction false} BatchStep(r0: seq<Msg>, e0: seq<Effect>, ms: seq<Msg>, i: nat, isInitial: bool, autoOpen: bool,
                                     r: seq<Msg>, e: seq<Effect>, r': seq<Msg>, e': seq<Effect>)
    requires i < |ms|
    requires r == PushAll(r0, ms[..i]) && e == e0 + Notices(Tagged(ms[..i], isInitial), autoOpen)
    requires r' == PushRecent(r, ms[i]) && e' == e + Notice(ms[i], autoOpen && !isInitial)
    ensures r' == PushAll(r0, ms[..i + 1]) && e' == e0 + Notices(Tagged(ms[..i + 1], isInitial), autoOpen)
  {
    assert ms[..i + 1][..i] == ms[..i];
    assert Tagged(ms[..i + 1], isInitial) == Tagged(ms[..i], isInitial) + [(ms[i], isInitial)];
    NoticesSnoc(Tagged(ms[..i], isInitial), (ms[i], isInitial), autoOpen);
    var n := Notice(ms[i], autoOpen && !isInitial);
    assert e0 + Notices(Tagged(ms[..i], isInitial), autoOpen) + n == e0 + (Notices(Tagged(ms[..i], isInitial), autoOpen) + n);
  }

  /**
    A link is opened for a batch exactly when one of its messages carries it
    as its target, auto-open is on, and that message was not initial.
   */
  lemma {:induction false} NoticesOpen(items: seq<(Msg, bool)>, autoOpen: bool, u: string)
    ensures OpenUrl(u) in Notices(items, autoOpen)
      <==> exists k :: 0 <= k < |items| && autoOpen && !items[k].1 && Target(items[k].0) == Some(u)
  {
    if items != [] {
      var init, last := items[..|items| - 1], items[|items| - 1];
      NoticesOpen(init, autoOpen, u);
      assert forall k :: 0 <= k < |init| ==> init[k] == items[k];
      var n := Notice(last.0, autoOpen && !last.1);
      assert OpenUrl(u) in n <==> autoOpen && !last.1 && Target(last.0) == Some(u);
      if exists k :: 0 <= k < |items| && autoOpen && !items[k].1 && Target(items[k].0) == Some(u) {
        var k :| 0 <= k < |items| && autoOpen && !items[k].1 && Target(items[k].0) == Some(u);
        if k < |init| {
          assert OpenUrl(u) in Notices(init, autoOpen);
        }
      }
    }
  }

  /**
    For a batch handled with one flag: a link is opened exactly when the switch
    is on, the batch is not the initial one, and some message of it has that link.
   */
  lemma {:induction false} BatchOpens(ms: seq<Msg>, isInitial: bool, autoOpen: bool, u: string)
    ensures OpenUrl(u) in Notices(Tagged(ms, isInitial), autoOpen)
      <==> autoOpen && !isInitial && exists k :: 0 <= k < |ms| && Target(ms[k]) == Some(u)
  {
    var items := Tagged(ms, isInitial);
    TaggedPointwise(ms, isInitial);
    NoticesOpen(items, autoOpen, u);
    assert forall k :: 0 <= k < |ms| ==> items[k].0 == ms[k] && items[k].1 == isInitial;
  }

  /** An initial batch never opens anything, whatever the auto-open switch says. */
  lemma {:induction false} InitialBatchOpensNothing(ms: seq<Msg>, autoOpen: bool, u: string)
    ensures OpenUrl(u) !in Notices(Tagged(ms, true), autoOpen)
  {
    BatchOpens(ms, true, autoOpen, u);
  }

  /** The notifications among some effects, in order. */
  function Notifications(effects: seq<Effect>): seq<Effect>
  {
    if effects == [] then []
    else
      var last := effects[|effects| - 1];
      Notifications(effects[..|effects| - 1]) + (if last.Notify? then [last] else [])
  }

  lemma {:induction false} NotificationsConcat(a: seq<Effect>, b: seq<Effect>)
    ensures Notifications(a + b) == Notifications(a) + Notifications(b)
    decreases |b|
  {
    if b == [] {
      assert a + b == a;
    } else {
      var init, last := b[..|b| - 1], b[|b| - 1];
      assert (a + b)[..|a + b| - 1] == a + init;
      NotificationsConcat(a, init);
    }
  }

  /** The notification each message gets, in order. */
  function NotifyEach(ms: seq<Msg>): seq<Effect>
  {
    if ms == [] then [] else NotifyEach(ms[..|ms| - 1]) + [Notify(NotifyTitle(ms[|ms| - 1]), DisplayBody(ms[|ms| - 1]))]
  }

  /** Every message of a batch is notified exactly once, in batch order, whatever is opened. */
  lemma {:induction false} NoticesNotifyEach(items: seq<(Msg, bool)>, autoOpen: bool)
    ensures Notifications(Notices(items, autoOpen)) == NotifyEach(Untagged(items))
  {
    if items != [] {
      var init, last := items[..|items| - 1], items[|items| - 1];
      NoticesNotifyEach(init, autoOpen);
      var n := Notice(last.0, autoOpen && !last.1);
      NotificationsConcat(Notices(init, autoOpen), n);
      assert Notifications(n) == [n[0]] by {
        assert n[0].Notify?;
        if |n| == 2 {
          assert !n[1].Notify?;
          assert n[..1] == [n[0]] && n[..1][..0] == [];
          assert Notifications(n[..1]) == [n[0]];
        } else {
          assert n[..0] == [];
        }
      }
      var ms := Untagged(items);
      assert ms[..|ms| - 1] == Untagged(init);
    }
  }

  // ----- configuration ----------------------------------------------------

  /** `cfg.get("auto_open", True)`, read for its truthiness. */
  function AutoOpenSetting(cfg: Cfg): (r: bool)
    ensures "auto_open" !in cfg ==> r
    ensures "auto_open" in cfg ==> r == Truthy(cfg["auto_open"])
  {
    if "auto_open" in cfg then Truthy(cfg["auto_open"]) else true
  }

  /**
    Writing the switch back stores it under "auto_open" only: reading the saved
    configuration gives the same setting, and every other key is as it was.
   */
  lemma SavedAutoOpen(cfg: Cfg, on: bool)
    ensures AutoOpenSetting(cfg["auto_open" := Bool(on)]) == on
    ensures forall k :: k in cfg && k != "auto_open" ==> k in cfg["auto_open" := Bool(on)] && cfg["auto_open" := Bool(on)][k] == cfg[k]
  {
  }

  // ----- the menu ---------------------------------------------------------

  /** What a menu item does when clicked. */
  datatype Command = Open(url: string) | ClearRecent | ToggleAutoOpen | Quit

  /**
    A menu entry: a labelled item that runs a command, or is greyed out when it
    has none; a check item; or a separator.
   */
  datatype MenuItem =
    | Item(caption: string, command: Option<Command>)
    | CheckItem(caption: string, checked: bool, toggles: Command)
    | Separator

  /** The entry for one recent message: clickable exactly when the message has a link. */
  function Entry(m: Msg): (e: MenuItem)
    ensures e.Item? && e.caption == Label(m)
    ensures e.command.Some? <==> Target(m).Some?
    ensures e.command.Some? ==> e.command.value == Open(Target(m).value)
  {
    Item(Label(m), if Target(m).Some? then Some(Open(Target(m).value)) else None)
  }

  /** One entry per recent message, in the list's order. */
  function Entries(recent: seq<Msg>): seq<MenuItem>
  {
    if recent == [] then [] else Entries(recent[..|recent| - 1]) + [Entry(recent[|recent| - 1])]
  }

  /** Entry `k` of the menu belongs to message `k` of the list. */
  lemma {:induction false} EntriesPointwise(recent: seq<Msg>)
    ensures |Entries(recent)| == |recent|
    ensures forall k :: 0 <= k < |recent| ==> Entries(recent)[k] == Entry(recent[k])
  {
    if recent != [] {
      var init := recent[..|recent| - 1];
      EntriesPointwise(init);
      assert forall k :: 0 <= k < |init| ==> recent[k] == init[k];
    }
  }

  /** The recent part of the menu: an entry per message, or the greyed-out placeholder. */
  function RecentSection(recent: seq<Msg>): seq<MenuItem>
  {
    if recent == [] then [Item(Placeholder, None)] else Entries(recent)
  }

  /** The recent part of the menu is made of plain items only. */
  lemma {:induction false} RecentSectionPlain(recent: seq<Msg>)
    ensures forall k :: 0 <= k < |RecentSection(recent)| ==> RecentSection(recent)[k].Item?
  {
    EntriesPointwise(recent);
  }

  /** The loop of `_rebuild_menu` / `_build_menu` that makes the recent part of the menu. */
  method BuildRecentSection(recent: seq<Msg>) returns (items: seq<MenuItem>)
    ensures items == RecentSection(recent)
  {
    if recent == [] {
      return [Item(Placeholder, None)];
    }
    items := [];
    for i := 0 to |recent|
      invariant items == Entries(recent[..i])
    {
      assert recent[..i + 1][..i] == recent[..i];
      items := items + [Entry(recent[i])];
    }
    assert recent[..|recent|] == recent;
  }

  /**
    The recent part of the menu has one entry per message in list order, each
    labelled by `Label` and clickable iff the message has a link; an empty list
    shows only the placeholder, which does nothing.
   */
  lemma {:induction false} RecentSectionShape(recent: seq<Msg>)
    ensures recent == [] ==> RecentSection(recent) == [Item(Placeholder, None)]
    ensures recent != [] ==> |RecentSection(recent)| == |recent|
    ensures forall k :: 0 <= k < |recent| ==>
      RecentSection(recent)[k].Item? && RecentSection(recent)[k].caption == Label(recent[k])
      && (RecentSection(recent)[k].command.Some? <==> Target(recent[k]).Some?)
  {
    EntriesPointwise(recent);
  }
}
