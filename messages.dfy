/**
  The values that flow from the provider's REST API into the client and on to
  the tray, and the configuration record the program loads and saves.
 */
module Messages {

  datatype Option<+T> = None | Some(value: T)

  /**
    One queued notification as `fetch_messages` returns it (linkover/api.py:31-38).
    The tray code reads every text field through `msg.get(key) or ""`, so a
    field the provider leaves out, or sends as null, is the empty string here.
   */
  datatype Msg = Msg(id: int, title: string, message: string, url: string)

  /** Outcome of one call to `fetch_messages`: it raised, or it returned the queue. */
  datatype Fetch = FetchFailed | Fetched(messages: seq<Msg>)
}

/** The JSON configuration dictionary, as far as the program inspects it. */
module Config {

  /** A JSON value as the program sees it: only its truthiness and its text are used. */
  datatype Value = Null | Bool(b: bool) | Int(i: int) | Str(s: string)

  type Cfg = map<string, Value>

  /** `cfg.get(key)`: the stored value, or `None` when the key is absent. */
  function Get(cfg: Cfg, key: string): (v: Value)
    ensures key !in cfg ==> v == Null
    ensures key in cfg ==> v == cfg[key]
  {
    if key in cfg then cfg[key] else Null
  }

  /** Python truthiness of a JSON value. */
  predicate Truthy(v: Value)
  {
    match v
    case Null => false
    case Bool(b) => b
    case Int(i) => i != 0
    case Str(s) => s != ""
  }
}
