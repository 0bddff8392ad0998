/**
  The real-time channel's wire format: the login frame the client sends when
  the socket opens, and the classification of the control frames it receives
  (linkover/client.py:50-65).
 */
module Frames {
  import opened Text
  import opened Messages

  /** What `on_message` does with one frame. */
  datatype Action = FetchRound | CloseSocket | NoAction

  /**
    Python's `str.isspace`: the characters `str.strip()` removes when it is
    called without arguments.
   */
  predicate IsSpace(c: char)
  {
    ('\U{0009}' <= c <= '\U{000D}') || ('\U{001C}' <= c <= '\U{0020}') || c == '\U{0085}'
    || c == '\U{00A0}' || c == '\U{1680}' || ('\U{2000}' <= c <= '\U{200A}')
    || c == '\U{2028}' || c == '\U{2029}' || c == '\U{202F}' || c == '\U{205F}' || c == '\U{3000}'
  }

  /** `s.strip()`: `s` without its leading and trailing whitespace, peeled one character at a time. */
  function Strip(s: string): string
  {
    if s != [] && IsSpace(s[0]) then Strip(s[1..])
    else if s != [] && IsSpace(s[|s| - 1]) then Strip(s[..|s| - 1])
    else s
  }

  /** Every character of `s` is whitespace. */
  predicate Blank(s: string)
  {
    forall i :: 0 <= i < |s| ==> IsSpace(s[i])
  }

  /**
    What `strip` promises: the result is the part of `s` from position `k` on
    that neither starts nor ends with whitespace, and everything outside it is
    whitespace.
   */
  lemma {:induction false} StripShape(s: string) returns (k: nat)
    ensures var r := Strip(s);
      k + |r| <= |s| && r == s[k..k + |r|]
      && (forall i :: 0 <= i < |s| && !(k <= i < k + |r|) ==> IsSpace(s[i]))
      && (r != [] ==> !IsSpace(r[0]) && !IsSpace(r[|r| - 1]))
  {
    var r := Strip(s);
    if s != [] && IsSpace(s[0]) {
      var t := s[1..];
      var j := StripShape(t);
      k := j + 1;
      assert r == Strip(t) == t[j..j + |r|] == s[k..k + |r|];
      assert forall i :: 1 <= i < |s| ==> s[i] == t[i - 1];
    } else if s != [] && IsSpace(s[|s| - 1]) {
      var t := s[..|s| - 1];
      k := StripShape(t);
      assert r == Strip(t) == t[k..k + |r|] == s[k..k + |r|];
      assert forall i :: 0 <= i < |t| ==> s[i] == t[i];
    } else {
      k := 0;
      assert s[0..|s|] == s;
    }
  }

  /** Leading whitespace never changes what a text strips to. */
  lemma {:induction false} StripDropsLead(lead: string, x: string)
    requires Blank(lead)
    ensures Strip(lead + x) == Strip(x)
  {
    if lead != [] {
      assert (lead + x)[0] == lead[0] && (lead + x)[1..] == lead[1..] + x;
      StripDropsLead(lead[1..], x);
    } else {
      assert lead + x == x;
    }
  }

  /** Trailing whitespace never changes what a text strips to. */
  lemma {:induction false} StripDropsTrail(x: string, trail: string)
    requires Blank(trail)
    ensures Strip(x + trail) == Strip(x)
    decreases |x| + |trail|
  {
    var p := x + trail;
    if trail == [] {
      assert p == x;
    } else if x == [] {
      assert p == trail && p[1..] == x + trail[1..];
      StripDropsTrail(x, trail[1..]);
    } else if IsSpace(x[0]) {
      assert p[0] == x[0] && p[1..] == x[1..] + trail;
      StripDropsTrail(x[1..], trail);
    } else {
      assert p[0] == x[0] && p[|p| - 1] == trail[|trail| - 1];
      assert p[..|p| - 1] == x + trail[..|trail| - 1];
      StripDropsTrail(x, trail[..|trail| - 1]);
    }
  }

  /** Surrounding whitespace never changes what a frame strips to. */
  lemma {:induction false} StripIgnoresPadding(lead: string, raw: string, trail: string)
    requires Blank(lead) && Blank(trail)
    ensures Strip(lead + raw + trail) == Strip(raw)
  {
    assert lead + raw + trail == lead + (raw + trail);
    StripDropsLead(lead, raw + trail);
    StripDropsTrail(raw, trail);
  }

  /**
    The signal decoder of `on_message`: the frame is stripped first; `!` starts a
    fetch round, `R` (reconnect requested) and `E` (server error) close the
    socket, and every other frame, the `#` heartbeat included, is ignored.
   */
  function Decode(raw: string): Action
  {
    var signal := Strip(raw);
    if signal == "!" then FetchRound
    else if signal == "R" || signal == "E" then CloseSocket
    else NoAction
  }

  /** `raw` is the single character `c` with nothing but whitespace around it. */
  ghost predicate Padded(raw: string, c: char)
  {
    exists i :: 0 <= i < |raw| && raw[i] == c && forall j :: 0 <= j < |raw| && j != i ==> IsSpace(raw[j])
  }

  /** The decoder reads only the stripped frame. */
  lemma {:induction false} DecodeIgnoresPadding(lead: string, raw: string, trail: string)
    requires Blank(lead) && Blank(trail)
    ensures Decode(lead + raw + trail) == Decode(raw)
  {
    StripIgnoresPadding(lead, raw, trail);
  }

  /** A frame that is one non-blank character strips to itself. */
  lemma {:induction false} StripChar(c: char)
    requires !IsSpace(c)
    ensures Strip([c]) == [c]
  {
  }

  /** A text strips to the single non-blank `c` exactly when it is `c` padded with whitespace. */
  lemma {:induction false} StripIsChar(raw: string, c: char)
    requires !IsSpace(c)
    ensures Strip(raw) == [c] <==> Padded(raw, c)
  {
    var k := StripShape(raw);
    if Padded(raw, c) {
      var i :| 0 <= i < |raw| && raw[i] == c && forall j :: 0 <= j < |raw| && j != i ==> IsSpace(raw[j]);
      var lead, trail := raw[..i], raw[i + 1..];
      assert Blank(lead) by {
        assert forall j :: 0 <= j < |lead| ==> lead[j] == raw[j];
      }
      assert Blank(trail) by {
        assert forall j :: 0 <= j < |trail| ==> trail[j] == raw[i + 1 + j];
      }
      assert raw == lead + [c] + trail;
      StripIgnoresPadding(lead, [c], trail);
      StripChar(c);
    }
    if Strip(raw) == [c] {
      assert raw[k] == c;
    }
  }

  /**
    Decoding in the system's own terms: a frame starts a fetch round iff it is
    `!` with only whitespace around it, and closes the socket iff it is such a
    padded `R` or `E`; anything else is ignored.
   */
  lemma {:induction false} SignalIff(raw: string)
    ensures Decode(raw) == FetchRound <==> Padded(raw, '!')
    ensures Decode(raw) == CloseSocket <==> Padded(raw, 'R') || Padded(raw, 'E')
    ensures Decode(raw) == NoAction <==> !Padded(raw, '!') && !Padded(raw, 'R') && !Padded(raw, 'E')
  {
    StripIsChar(raw, '!');
    StripIsChar(raw, 'R');
    StripIsChar(raw, 'E');
  }

  /** The four frames the provider sends, bare. */
  lemma {:induction false} BareSignals()
    ensures Decode("!") == FetchRound && Decode("R") == CloseSocket && Decode("E") == CloseSocket
    ensures Decode("#") == NoAction && Decode("") == NoAction
  {
    StripChar('!');
    StripChar('R');
    StripChar('E');
    StripChar('#');
  }

  /** A signal followed by the line ending a sender may add. */
  lemma {:induction false} SignalWithLineEnding(c: char)
    requires !IsSpace(c)
    ensures Decode([c, '\n']) == Decode([c]) && Decode([c, '\r', '\n']) == Decode([c])
  {
    var lf, crlf := ['\n'], ['\r', '\n'];
    assert IsSpace(lf[0]) && IsSpace(crlf[0]) && IsSpace(crlf[1]);
    DecodeIgnoresPadding([], [c], lf);
    assert [] + [c] + lf == [c, '\n'];
    DecodeIgnoresPadding([], [c], crlf);
    assert [] + [c] + crlf == [c, '\r', '\n'];
  }

  /** The first frame `on_open` sends: `login:{device_id}:{secret}` and a newline. */
  function LoginFrame(deviceId: string, secret: string): string
  {
    "login:" + deviceId + ":" + secret + "\n"
  }

  /**
    How the far end reads a login frame: the device id runs up to the first `:`
    after the `login:` tag, the secret up to the final newline.
   */
  function ReadLogin(frame: string): Option<(string, string)>
  {
    if StartsWith(frame, "login:") && |frame| >= 7 && frame[|frame| - 1] == '\n' then
      var fields := frame[6..|frame| - 1];
      var device := Before(fields, ':');
      if |device| < |fields| then Some((device, fields[|device| + 1..])) else None
    else
      None
  }

  /**
    The login frame carries both credentials recoverably as long as the device
    id has no `:` in it; the secret may contain anything.
   */
  lemma {:induction false} LoginRoundTrip(deviceId: string, secret: string)
    requires ':' !in deviceId
    ensures ReadLogin(LoginFrame(deviceId, secret)) == Some((deviceId, secret))
  {
    var frame := LoginFrame(deviceId, secret);
    var fields := frame[6..|frame| - 1];
    assert fields == deviceId + [':'] + secret;
    BeforeFirst(deviceId, ':', secret);
    assert fields[|deviceId| + 1..] == secret;
  }
}
