/**
  The Linux tray front end (linkover/tray_linux.py). Batches are handled on
  the WebSocket thread as they arrive; the menu is rebuilt later, by a
  refresh queued on the GTK main loop.
 */
module TrayLinux {
  import opened Messages
  import opened Config
  import opened Links

  /** `_build_menu`: the recent entries, then the fixed controls. */
  function LinuxMenu(recent: seq<Msg>, autoOpen: bool): seq<MenuItem>
  {
    RecentSection(recent) + Controls(autoOpen)
  }

  /** "Clear recent", the auto-open check item and Quit, between separators. */
  function Controls(autoOpen: bool): seq<MenuItem>
  {
    [Separator, Item("Clear recent", Some(ClearRecent)),
     Separator, CheckItem("Auto-open links", autoOpen, ToggleAutoOpen),
     Separator, Item("Quit", Some(Quit))]
  }

  /** A menu item as GTK shows it once the user has set the check item to `on`. */
  function Tick(item: MenuItem, on: bool): MenuItem
  {
    match item
    case CheckItem(caption, _, toggles) => CheckItem(caption, on, toggles)
    case _ => item
  }

  /** The menu as GTK shows it once the user has set its check item to `on`. */
  function SetChecked(menu: seq<MenuItem>, on: bool): seq<MenuItem>
  {
    if menu == [] then [] else [Tick(menu[0], on)] + SetChecked(menu[1..], on)
  }

  /** Ticking changes check items only, each in its place. */
  lemma {:induction false} SetCheckedPointwise(menu: seq<MenuItem>, on: bool)
    ensures |SetChecked(menu, on)| == |menu|
    ensures forall k :: 0 <= k < |menu| ==> SetChecked(menu, on)[k] == Tick(menu[k], on)
  {
    if menu != [] {
      SetCheckedPointwise(menu[1..], on);
      assert forall k :: 1 <= k < |menu| ==> menu[k] == menu[1..][k - 1];
    }
  }

  lemma {:induction false} SetCheckedConcat(a: seq<MenuItem>, b: seq<MenuItem>, on: bool)
    ensures SetChecked(a + b, on) == SetChecked(a, on) + SetChecked(b, on)
  {
    if a == [] {
      assert a + b == b;
    } else {
      assert (a + b)[0] == a[0] && (a + b)[1..] == a[1..] + b;
      SetCheckedConcat(a[1..], b, on);
    }
  }

  /** A menu without check items is left as it is. */
  lemma {:induction false} SetCheckedPlain(menu: seq<MenuItem>, on: bool)
    requires forall k :: 0 <= k < |menu| ==> !menu[k].CheckItem?
    ensures SetChecked(menu, on) == menu
  {
    SetCheckedPointwise(menu, on);
  }

  lemma {:induction false} SetCheckedControls(before: bool, after: bool)
    ensures SetChecked(Controls(before), after) == Controls(after)
  {
    var c, c' := Controls(before), Controls(after);
    SetCheckedPointwise(c, after);
    assert forall k :: 0 <= k < |c| && k != 3 ==> !c[k].CheckItem? && c[k] == c'[k];
  }

  /** Ticking a built menu gives the menu built with the new setting. */
  lemma {:induction false} SetCheckedMenu(recent: seq<Msg>, before: bool, after: bool)
    ensures SetChecked(LinuxMenu(recent, before), after) == LinuxMenu(recent, after)
  {
    SetCheckedConcat(RecentSection(recent), Controls(before), after);
    RecentSectionPlain(recent);
    SetCheckedPlain(RecentSection(recent), after);
    SetCheckedControls(before, after);
  }

  class TrayApp {
    var cfg: Cfg
    var autoOpen: bool
    /** `_recent`, newest first. */
    var recent: seq<Msg>
    /** The indicator's current menu. */
    var menu: seq<MenuItem>
    /** A `_refresh_menu` call is queued on the main loop. */
    var refreshPending: bool
    /** Notifications shown, links opened and configurations saved, in order. */
    var effects: seq<Effect>

    /**
      The list is bounded, the menu is current unless a refresh is queued, and
      the configuration, read back, gives the switch it holds.
     */
    ghost predicate Valid()
      reads this
    {
      |recent| <= MaxRecent && (refreshPending || menu == LinuxMenu(recent, autoOpen))
      && AutoOpenSetting(cfg) == autoOpen
    }

    /** `__init__`: auto-open as configured (on when unset), nothing recent, the menu built. */
    constructor (config: Cfg)
      ensures Valid() && !refreshPending
      ensures cfg == config && autoOpen == AutoOpenSetting(config)
      ensures recent == [] && effects == []
    {
      cfg := config;
      autoOpen := AutoOpenSetting(config);
      recent := [];
      effects := [];
      refreshPending := false;
      new;
      RefreshMenu();
    }

    /**
      `on_messages`: every message of the batch is handled in order, each with
      auto-open allowed exactly when the switch is on and the batch is not the
      initial one; then a menu refresh is queued.
     */
    method OnMessages(messages: seq<Msg>, isInitial: bool)
      requires Valid()
      modifies this
      ensures Valid() && refreshPending
      ensures recent == PushAll(old(recent), messages)
      ensures effects == old(effects) + Notices(Tagged(messages, isInitial), autoOpen)
      ensures cfg == old(cfg) && autoOpen == old(autoOpen) && menu == old(menu)
    {
      ghost var r0, e0 := recent, effects;
      for i := 0 to |messages|
        invariant recent == PushAll(r0, messages[..i]) && |recent| <= MaxRecent
        invariant effects == e0 + Notices(Tagged(messages[..i], isInitial), autoOpen)
        invariant cfg == old(cfg) && autoOpen == old(autoOpen) && menu == old(menu)
      {
        ghost var r, e := recent, effects;
        HandleMessage(messages[i], autoOpen && !isInitial);
        BatchStep(r0, e0, messages, i, isInitial, autoOpen, r, e, recent, effects);
      }
      assert messages[..|messages|] == messages;
      refreshPending := true;
    }

    /**
      `_handle_message`: the message goes to the front of the recent list; it is
      notified, and its link is scheduled for opening when `allowOpen` holds.
     */
    method HandleMessage(msg: Msg, allowOpen: bool)
      modifies this
      ensures recent == PushRecent(old(recent), msg)
      ensures effects == old(effects) + Notice(msg, allowOpen)
      ensures cfg == old(cfg) && autoOpen == old(autoOpen) && menu == old(menu) && refreshPending == old(refreshPending)
    {
      recent := PushRecent(recent, msg);
      effects := effects + [Notify(NotifyTitle(msg), DisplayBody(msg))];
      var target := Target(msg);
      if target.Some? && allowOpen {
        effects := effects + [OpenUrl(target.value)];
      }
    }

    /** `_clear_recent`: empty the list and queue a refresh. */
    method ClearRecentList()
      requires Valid()
      modifies this
      ensures Valid() && refreshPending
      ensures recent == []
      ensures cfg == old(cfg) && autoOpen == old(autoOpen) && menu == old(menu) && effects == old(effects)
    {
      recent := [];
      refreshPending := true;
    }

    /**
      `_on_auto_open_toggled`: the switch takes the check item's new state,
      which is stored in the configuration and saved; the menu is not rebuilt,
      GTK already shows the new state.
     */
    method OnAutoOpenToggled(active: bool)
      requires Valid()
      modifies this
      ensures Valid()
      ensures autoOpen == active
      ensures cfg == old(cfg)["auto_open" := Bool(active)]
      ensures effects == old(effects) + [SaveConfig(cfg)]
      ensures menu == SetChecked(old(menu), active)
      ensures recent == old(recent) && refreshPending == old(refreshPending)
    {
      if !refreshPending {
        SetCheckedMenu(recent, autoOpen, active);
      }
      autoOpen := active;
      cfg := cfg["auto_open" := Bool(autoOpen)];
      effects := effects + [SaveConfig(cfg)];
      menu := SetChecked(menu, active);
    }

    /** `_refresh_menu`, run from the main loop: the menu is rebuilt from the current state. */
    method RefreshMenu()
      modifies this
      ensures menu == LinuxMenu(recent, autoOpen) && !refreshPending
      ensures cfg == old(cfg) && autoOpen == old(autoOpen) && recent == old(recent) && effects == old(effects)
    {
      var section := BuildRecentSection(recent);
      menu := section + Controls(autoOpen);
      refreshPending := false;
    }
  }
}
