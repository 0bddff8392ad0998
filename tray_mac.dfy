/**
  The macOS menu-bar front end (linkover/tray_mac.py). Batches from the
  WebSocket thread are only queued; a timer on the main thread drains the
  queue, handles each message and rebuilds the menu.
 */
module TrayMac {
  import opened Messages
  import opened Config
  import opened Links

  /** `_rebuild_menu`: the recent entries, the auto-open switch, and Quit. */
  function MacMenu(recent: seq<Msg>, autoOpen: bool): seq<MenuItem>
  {
    RecentSection(recent)
    + [Separator, CheckItem("Auto-open links", autoOpen, ToggleAutoOpen), Separator, Item("Quit", Some(Quit))]
  }

  class TrayApp {
    var cfg: Cfg
    var autoOpen: bool
    /** `_recent`, newest first. */
    var recent: seq<Msg>
    /** `_pending`: queued `(msg, is_initial)` pairs, oldest first. */
    var pending: seq<(Msg, bool)>
    var menu: seq<MenuItem>
    /** Notifications shown, links opened and configurations saved, in order. */
    var effects: seq<Effect>

    /**
      The menu shows the current recent list and switch, the list is bounded,
      and the configuration, read back, gives the switch it holds.
     */
    ghost predicate Valid()
      reads this
    {
      menu == MacMenu(recent, autoOpen) && |recent| <= MaxRecent && AutoOpenSetting(cfg) == autoOpen
    }

    /** `__init__`: auto-open as configured (on when unset), nothing recent, nothing queued. */
    constructor (config: Cfg)
      ensures Valid()
      ensures cfg == config && autoOpen == AutoOpenSetting(config)
      ensures recent == [] && pending == [] && effects == []
    {
      cfg := config;
      autoOpen := AutoOpenSetting(config);
      recent := [];
      pending := [];
      effects := [];
      new;
      RebuildMenu();
    }

    /** `on_messages`: queue the batch, each message tagged with the batch's flag; nothing else changes. */
    method OnMessages(messages: seq<Msg>, isInitial: bool)
      modifies this
      ensures pending == old(pending) + Tagged(messages, isInitial)
      ensures cfg == old(cfg) && autoOpen == old(autoOpen) && recent == old(recent)
      ensures menu == old(menu) && effects == old(effects)
    {
      pending := pending + Tagged(messages, isInitial);
    }

    /**
      `_drain_pending`: with nothing queued nothing happens, not even a rebuild.
      Otherwise the queue is emptied and every queued message is handled once,
      oldest first, then the menu is rebuilt once.
     */
    method DrainPending()
      requires Valid()
      modifies this
      ensures Valid()
      ensures old(pending) == [] ==> menu == old(menu)
      ensures recent == PushAll(old(recent), Untagged(old(pending)))
      ensures effects == old(effects) + Notices(old(pending), old(autoOpen))
      ensures pending == [] && cfg == old(cfg) && autoOpen == old(autoOpen)
    {
      if pending == [] {
        return;
      }
      var batch := pending;
      pending := [];
      HandleBatch(batch);
      RebuildMenu();
    }

    /** The loop of `_drain_pending`: each item is handled once, in queue order. */
    method HandleBatch(batch: seq<(Msg, bool)>)
      requires |recent| <= MaxRecent
      modifies this
      ensures recent == PushAll(old(recent), Untagged(batch)) && |recent| <= MaxRecent
      ensures effects == old(effects) + Notices(batch, autoOpen)
      ensures cfg == old(cfg) && autoOpen == old(autoOpen) && pending == old(pending) && menu == old(menu)
    {
      ghost var r0, e0 := recent, effects;
      for i := 0 to |batch|
        invariant recent == PushAll(r0, Untagged(batch[..i])) && |recent| <= MaxRecent
        invariant effects == e0 + Notices(batch[..i], autoOpen)
        invariant cfg == old(cfg) && autoOpen == old(autoOpen) && pending == old(pending) && menu == old(menu)
      {
        ghost var r, e := recent, effects;
        HandleMessage(batch[i].0, autoOpen && !batch[i].1);
        DrainStep(r0, e0, batch, i, autoOpen, r, e, recent, effects);
      }
      assert batch[..|batch|] == batch;
    }

    /**
      `_handle_message`: the message goes to the front of the recent list; it is
      notified, and its link is opened when `allowOpen` holds.
     */
    method HandleMessage(msg: Msg, allowOpen: bool)
      modifies this
      ensures recent == PushRecent(old(recent), msg)
      ensures effects == old(effects) + Notice(msg, allowOpen)
      ensures cfg == old(cfg) && autoOpen == old(autoOpen) && pending == old(pending) && menu == old(menu)
    {
      recent := PushRecent(recent, msg);
      effects := effects + [Notify(NotifyTitle(msg), DisplayBody(msg))];
      var target := Target(msg);
      if target.Some? && allowOpen {
        effects := effects + [OpenUrl(target.value)];
      }
    }

    /** `_on_auto_open_toggled`: flip the switch, store it in the configuration, save it, rebuild. */
    method OnAutoOpenToggled()
      requires Valid()
      modifies this
      ensures Valid()
      ensures autoOpen == !old(autoOpen)
      ensures cfg == old(cfg)["auto_open" := Bool(autoOpen)]
      ensures effects == old(effects) + [SaveConfig(cfg)]
      ensures recent == old(recent) && pending == old(pending)
    {
      autoOpen := !autoOpen;
      cfg := cfg["auto_open" := Bool(autoOpen)];
      effects := effects + [SaveConfig(cfg)];
      RebuildMenu();
    }

    /** `_rebuild_menu`: build the menu from the current list and switch. */
    method RebuildMenu()
      modifies this
      ensures menu == MacMenu(recent, autoOpen)
      ensures cfg == old(cfg) && autoOpen == old(autoOpen) && recent == old(recent)
      ensures pending == old(pending) && effects == old(effects)
    {
      var section := BuildRecentSection(recent);
      menu := section + [Separator, CheckItem("Auto-open links", autoOpen, ToggleAutoOpen), Separator, Item("Quit", Some(Quit))];
    }
  }

  /** The effects of one more queued message follow those of the ones before it. */
  lemma {:induction false} NoticesPrefix(batch: seq<(Msg, bool)>, i: nat, autoOpen: bool)
    requires i < |batch|
    ensures Notices(batch[..i + 1], autoOpen) == Notices(batch[..i], autoOpen) + Notice(batch[i].0, autoOpen && !batch[i].1)
  {
    assert batch[..i + 1] == batch[..i] + [batch[i]];
    NoticesSnoc(batch[..i], batch[i], autoOpen);
  }

  /** One more queued message is pushed onto the list left by the ones before it. */
  lemma {:induction false} PushAllSnoc(r0: seq<Msg>, batch: seq<(Msg, bool)>, i: nat)
    requires i < |batch|
    ensures PushAll(r0, Untagged(batch[..i + 1])) == PushRecent(PushAll(r0, Untagged(batch[..i])), batch[i].0)
  {
    assert batch[..i + 1][..i] == batch[..i];
    var ms := Untagged(batch[..i + 1]);
    assert ms[..i] == Untagged(batch[..i]);
  }

  /** Handling the next queued message extends the list and the effects by that message. */
  lemma {:induction false} DrainStep(r0: seq<Msg>, e0: seq<Effect>, batch: seq<(Msg, bool)>, i: nat, autoOpen: bool,
                                     r: seq<Msg>, e: seq<Effect>, r': seq<Msg>, e': seq<Effect>)
    requires i < |batch|
    requires r == PushAll(r0, Untagged(batch[..i])) && e == e0 + Notices(batch[..i], autoOpen)
    requires r' == PushRecent(r, batch[i].0) && e' == e + Notice(batch[i].0, autoOpen && !batch[i].1)
    ensures r' == PushAll(r0, Untagged(batch[..i + 1])) && e' == e0 + Notices(batch[..i + 1], autoOpen)
  {
    PushAllSnoc(r0, batch, i);
    NoticesPrefix(batch, i, autoOpen);
    var n := Notice(batch[i].0, autoOpen && !batch[i].1);
    assert e0 + Notices(batch[..i], autoOpen) + n == e0 + (Notices(batch[..i], autoOpen) + n);
  }
}
