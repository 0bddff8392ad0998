/**
  The older Linux tray (linkover/tray.py), which the entry point no longer
  imports: it has no auto-open switch and opens every link it receives.
 */
module TrayLegacy {
  import opened Messages
  import opened Links

  /** `_build_menu`: the recent entries, then Quit. */
  function LegacyMenu(recent: seq<Msg>): seq<MenuItem>
  {
    RecentSection(recent) + [Separator, Item("Quit", Some(Quit))]
  }

  class TrayApp {
    /** `_recent`, newest first. */
    var recent: seq<Msg>
    var menu: seq<MenuItem>
    /** A `_refresh_menu` call is queued on the main loop. */
    var refreshPending: bool
    /** Notifications shown and links opened, in order. */
    var effects: seq<Effect>

    /** The list is bounded, and the menu is current unless a refresh is queued. */
    ghost predicate Valid()
      reads this
    {
      |recent| <= MaxRecent && (refreshPending || menu == LegacyMenu(recent))
    }

    /** `__init__`: nothing recent, the menu built. */
    constructor ()
      ensures Valid() && !refreshPending
      ensures recent == [] && effects == []
    {
      recent := [];
      effects := [];
      refreshPending := false;
      new;
      RefreshMenu();
    }

    /**
      `on_messages`: every message is handled once, in order, each link opened
      unconditionally; then a menu refresh is queued.
     */
    method OnMessages(messages: seq<Msg>)
      requires Valid()
      modifies this
      ensures Valid() && refreshPending
      ensures recent == PushAll(old(recent), messages)
      ensures effects == old(effects) + Notices(Tagged(messages, false), true)
      ensures menu == old(menu)
    {
      ghost var r0, e0 := recent, effects;
      for i := 0 to |messages|
        invariant recent == PushAll(r0, messages[..i]) && |recent| <= MaxRecent
        invariant effects == e0 + Notices(Tagged(messages[..i], false), true)
        invariant menu == old(menu)
      {
        ghost var r, e := recent, effects;
        HandleMessage(messages[i]);
        BatchStep(r0, e0, messages, i, false, true, r, e, recent, effects);
      }
      assert messages[..|messages|] == messages;
      refreshPending := true;
    }

    /**
      `_handle_message`: the message goes to the front of the recent list; it is
      notified, and its link, if any, is scheduled for opening.
     */
    method HandleMessage(msg: Msg)
      modifies this
      ensures recent == PushRecent(old(recent), msg)
      ensures effects == old(effects) + Notice(msg, true)
      ensures menu == old(menu) && refreshPending == old(refreshPending)
    {
      recent := PushRecent(recent, msg);
      effects := effects + [Notify(NotifyTitle(msg), DisplayBody(msg))];
      var target := Target(msg);
      if target.Some? {
        effects := effects + [OpenUrl(target.value)];
      }
    }

    /** `_refresh_menu`, run from the main loop: the menu is rebuilt from the current list. */
    method RefreshMenu()
      modifies this
      ensures menu == LegacyMenu(recent) && !refreshPending
      ensures recent == old(recent) && effects == old(effects)
    {
      var section := BuildRecentSection(recent);
      menu := section + [Separator, Item("Quit", Some(Quit))];
      refreshPending := false;
    }
  }

  /** Without a switch, every message of a batch that carries a link has it opened. */
  lemma {:induction false} EveryLinkOpened(messages: seq<Msg>, k: nat)
    requires k < |messages| && Target(messages[k]).Some?
    ensures OpenUrl(Target(messages[k]).value) in Notices(Tagged(messages, false), true)
  {
    BatchOpens(messages, false, true, Target(messages[k]).value);
  }
}
