/**
  The pure parts of first-run setup in linkover/__main__.py: when setup is
  needed, the device name derived from the host name, the configuration that
  setup saves, and the test that decides to ask for a two-factor code.
 */
module Setup {
  import opened Text
  import opened Config

  const DevicePrefix: string := "linkover-"
  /** Device names are cut to this many characters. */
  const MaxDeviceName: nat := 25

  /** The characters `[a-zA-Z0-9_-]` keeps; the ranges are ASCII. */
  predicate NameChar(c: char)
  {
    ('a' <= c <= 'z') || ('A' <= c <= 'Z') || ('0' <= c <= '9') || c == '_' || c == '-'
  }

  /** `re.sub(r"[^a-zA-Z0-9_-]", "-", s)`: every other character becomes `-`, one for one. */
  function Sanitize(s: string): (r: string)
    ensures |r| == |s|
    ensures forall i :: 0 <= i < |s| ==> r[i] == if NameChar(s[i]) then s[i] else '-'
  {
    if s == [] then []
    else
      var r := [if NameChar(s[0]) then s[0] else '-'] + Sanitize(s[1..]);
      assert forall i :: 1 <= i < |s| ==> s[i] == s[1..][i - 1];
      r
  }

  /** Sanitizing leaves only allowed characters and changes nothing that is already allowed. */
  lemma {:induction false} SanitizeIdempotent(s: string)
    ensures forall i :: 0 <= i < |s| ==> NameChar(Sanitize(s)[i])
    ensures Sanitize(Sanitize(s)) == Sanitize(s)
    ensures (forall i :: 0 <= i < |s| ==> NameChar(s[i])) ==> Sanitize(s) == s
  {
    assert NameChar('-');
  }

  /** `hostname.split(".")[0]`: the host name up to its first dot. */
  function ShortHostname(hostname: string): (r: string)
    ensures '.' !in r && StartsWith(hostname, r)
    ensures |r| < |hostname| ==> hostname[|r|] == '.'
  {
    Before(hostname, '.')
  }

  /** A dotted name keeps its first label; a name without a dot is kept whole. */
  lemma {:induction false} ShortHostnameIs(first: string, rest: string)
    requires '.' !in first
    ensures ShortHostname(first + "." + rest) == first
    ensures ShortHostname(first) == first
  {
    BeforeFirst(first, '.', rest);
  }

  /** The device name registered for a host: `linkover-` and the short host name, sanitized, cut to 25. */
  function DeviceName(hostname: string): (r: string)
    ensures |r| <= MaxDeviceName
    ensures |r| == if |DevicePrefix| + |ShortHostname(hostname)| <= MaxDeviceName
                   then |DevicePrefix| + |ShortHostname(hostname)| else MaxDeviceName
    ensures forall i :: 0 <= i < |r| ==> NameChar(r[i])
    ensures StartsWith(r, DevicePrefix)
  {
    var full := Sanitize(DevicePrefix + ShortHostname(hostname));
    var r := Take(full, MaxDeviceName);
    assert forall i :: 0 <= i < |DevicePrefix| ==> NameChar(DevicePrefix[i]);
    assert r[..|DevicePrefix|] == DevicePrefix;
    assert forall i :: 0 <= i < |r| ==> r[i] == full[i];
    r
  }

  /**
    Past the prefix, character `i` of the short host name becomes character
    `9 + i` of the device name: itself when allowed, `-` otherwise.
   */
  lemma {:induction false} DeviceNameKeepsHost(hostname: string, i: nat)
    requires i < |ShortHostname(hostname)| && |DevicePrefix| + i < MaxDeviceName
    ensures DeviceName(hostname)[|DevicePrefix| + i] ==
      if NameChar(ShortHostname(hostname)[i]) then ShortHostname(hostname)[i] else '-'
  {
    var s := DevicePrefix + ShortHostname(hostname);
    assert s[|DevicePrefix| + i] == ShortHostname(hostname)[i];
  }

  /** `not cfg.get("secret") or not cfg.get("device_id")`. */
  predicate NeedsSetup(cfg: Cfg)
  {
    !Truthy(Get(cfg, "secret")) || !Truthy(Get(cfg, "device_id"))
  }

  /** Setup runs exactly when a credential is missing or empty. */
  lemma {:induction false} NeedsSetupIff(cfg: Cfg)
    ensures NeedsSetup(cfg) <==>
      "secret" !in cfg || !Truthy(cfg["secret"]) || "device_id" !in cfg || !Truthy(cfg["device_id"])
    ensures "secret" in cfg && "device_id" in cfg && cfg["secret"].Str? && cfg["device_id"].Str? ==>
      (NeedsSetup(cfg) <==> cfg["secret"].s == "" || cfg["device_id"].s == "")
  {
  }

  /** The configuration setup saves: exactly the secret and the device id. */
  function SetupConfig(secret: string, deviceId: string): (cfg: Cfg)
    ensures cfg.Keys == {"secret", "device_id"}
    ensures cfg["secret"] == Str(secret) && cfg["device_id"] == Str(deviceId)
  {
    map["secret" := Str(secret), "device_id" := Str(deviceId)]
  }

  /** A saved setup is complete, so the next start skips setup, exactly when both values are non-empty. */
  lemma {:induction false} SetupCompletes(secret: string, deviceId: string)
    ensures !NeedsSetup(SetupConfig(secret, deviceId)) <==> secret != "" && deviceId != ""
  {
    var cfg := SetupConfig(secret, deviceId);
    assert Get(cfg, "secret") == Str(secret) && Get(cfg, "device_id") == Str(deviceId);
  }

  /** Lower-casing of the ASCII letters; every other character is kept. */
  function Lower(s: string): (r: string)
    ensures |r| == |s|
    ensures forall i :: 0 <= i < |s| ==> r[i] == if 'A' <= s[i] <= 'Z' then (s[i] - 'A' + 'a') as char else s[i]
  {
    if s == [] then []
    else
      var c := if 'A' <= s[0] <= 'Z' then (s[0] - 'A' + 'a') as char else s[0];
      var r := [c] + Lower(s[1..]);
      assert forall i :: 1 <= i < |s| ==> s[i] == s[1..][i - 1];
      r
  }

  /** The login error asks for a second factor: its lower-cased text mentions "two", "twofa" or "2fa". */
  predicate WantsTwoFactor(error: string)
  {
    var t := Lower(error);
    Contains(t, "two") || Contains(t, "twofa") || Contains(t, "2fa")
  }

  /** The "twofa" test adds nothing: any text containing it contains "two". */
  lemma {:induction false} TwoFactorNeedles(error: string)
    ensures WantsTwoFactor(error) <==> Contains(Lower(error), "two") || Contains(Lower(error), "2fa")
  {
    if Contains(Lower(error), "twofa") {
      ContainsPrefixOfNeedle(Lower(error), "two", "twofa");
    }
  }
}
