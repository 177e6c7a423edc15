/** Addresses of the messaging network (JIDs) and the three things the bot
    derives from them: the normalised send target, the sender without its
    device suffix, and whether a chat is a group. */
module Jid {
  import opened Wrappers
  import opened JsText

  /** The server part of a user's address. */
  const UserServer: string := "@s.whatsapp.net"
  /** The server part of a group chat's address. */
  const GroupServer: string := "@g.us"
  /** The chat that carries status updates; the bot never answers it. */
  const StatusBroadcast: string := "status@broadcast"

  // ---------------------------------------------------------------------
  // Normalising a send target (backend/server.js:67, 303, 326, 340)
  // ---------------------------------------------------------------------

  /** A bare phone number becomes a user address; anything that already
      holds an `@` is taken as a full address. The result always extends
      the input. */
  function Normalize(x: string): (r: string)
    ensures '@' in r
    ensures StartsWith(r, x)
  {
    if '@' in x then x else x + UserServer
  }

  /** Normalising leaves exactly the inputs that contain `@` unchanged. */
  lemma NormalizeUnchangedIff(x: string)
    ensures Normalize(x) == x <==> '@' in x
  {
    if '@' !in x {
      assert |Normalize(x)| == |x| + |UserServer|;
    }
  }

  /** A bare number gains exactly the user server suffix. */
  lemma NormalizeBare(x: string)
    requires '@' !in x
    ensures Normalize(x) == x + UserServer
    ensures EndsWith(Normalize(x), UserServer)
  {
    EndsWithAppend(x, UserServer);
  }

  /** Normalising twice is normalising once. */
  lemma NormalizeIdempotent(x: string)
    ensures Normalize(Normalize(x)) == Normalize(x)
  {
  }

  // ---------------------------------------------------------------------
  // Group chats (backend/server.js:99, 256, 264, 286)
  // ---------------------------------------------------------------------

  /** `from.endsWith('@g.us')`. A group address already holds `@`, so it
      is a send target as it stands. */
  function IsGroup(jid: string): (b: bool)
    ensures b ==> '@' in jid && Normalize(jid) == jid
  {
    var b := EndsWith(jid, GroupServer);
    assert b ==> jid[|jid| - 5] == jid[|jid| - 5..][0] == '@';
    b
  }

  /** Every address on the group server is a group. */
  lemma GroupAddress(id: string)
    ensures IsGroup(id + GroupServer)
  {
    EndsWithAppend(id, GroupServer);
  }

  /** A normalised bare number never names a group. */
  lemma BareNumberNotGroup(x: string)
    requires '@' !in x
    ensures !IsGroup(Normalize(x))
  {
    var r := Normalize(x);
    assert r[|r| - 1] == 't';
  }

  // ---------------------------------------------------------------------
  // The sender: `.replace(/:.*$/, '')` (backend/server.js:100)
  // ---------------------------------------------------------------------

  /** The characters `.` does not match in a JavaScript regular expression
      without the `s` flag. */
  predicate IsLineTerminator(c: char) {
    c == '\n' || c == '\r' || c == '\U{2028}' || c == '\U{2029}'
  }

  /** `/:.*$/` matches starting at `j`: a colon followed by characters up to
      the end of the input, none of them a line terminator (`$` without the
      `m` flag is the end of the input). */
  predicate MatchesAt(s: string, j: int) {
    0 <= j < |s| && s[j] == ':' && forall k :: j < k < |s| ==> !IsLineTerminator(s[k])
  }

  /** The leftmost position at or after `i` where the pattern matches. */
  function MatchFrom(s: string, i: nat): (r: Option<nat>)
    requires i <= |s|
    ensures r.Some? ==> i <= r.value && MatchesAt(s, r.value)
    ensures r.Some? ==> forall j :: i <= j < r.value ==> !MatchesAt(s, j)
    ensures r.None? ==> forall j :: i <= j < |s| ==> !MatchesAt(s, j)
    decreases |s| - i
  {
    if i == |s| then None
    else if MatchesAt(s, i) then Some(i)
    else MatchFrom(s, i + 1)
  }

  /** `s.replace(/:.*$/, '')`: removes the first match, which runs to the
      end of the input, so what is left is a prefix. */
  function StripDevice(s: string): (r: string)
    ensures StartsWith(s, r)
  {
    match MatchFrom(s, 0)
    case None => s
    case Some(j) => s[..j]
  }

  /** Without line terminators, stripping cuts the address just before its
      first colon: the result has no colon, and is the whole input when
      there is none. */
  lemma StripDeviceBeforeColon(s: string)
    requires forall k :: 0 <= k < |s| ==> !IsLineTerminator(s[k])
    ensures StripDevice(s) == TakeUntil(s, ':')
    ensures ':' !in StripDevice(s)
    ensures ':' !in s ==> StripDevice(s) == s
  {
    var w := TakeUntil(s, ':');
    if |w| < |s| {
      assert MatchesAt(s, |w|);
      forall j | 0 <= j < |w| ensures !MatchesAt(s, j) {
        assert s[j] == w[j];
      }
      assert MatchFrom(s, 0) == Some(|w|);
    } else {
      forall j | 0 <= j < |s| ensures !MatchesAt(s, j) {
        assert s[j] == w[j];
      }
    }
  }

  /** Stripping leaves the address whole exactly when every colon in it is
      followed, somewhere later, by a line terminator. */
  lemma StripDeviceWholeIff(s: string)
    ensures StripDevice(s) == s <==>
      forall j :: 0 <= j < |s| && s[j] == ':' ==> exists k :: j < k < |s| && IsLineTerminator(s[k])
  {
    match MatchFrom(s, 0)
    case None =>
      forall j | 0 <= j < |s| && s[j] == ':' ensures exists k :: j < k < |s| && IsLineTerminator(s[k]) {
        assert !MatchesAt(s, j);
      }
    case Some(j) =>
      assert |s[..j]| < |s|;
  }

  /** A colon with no line terminator after it is still stripped, even when
      an earlier colon is shielded by a line break. */
  lemma StripDeviceLaterColon()
    ensures StripDevice("94:7\nx:5") == "94:7\nx"
  {
    var s := "94:7\nx:5";
    assert MatchesAt(s, 6);
    forall j | 0 <= j < 6 ensures !MatchesAt(s, j) {
      if j == 2 {
        assert IsLineTerminator(s[4]);
      }
    }
    assert MatchFrom(s, 0) == Some(6);
  }

  /** With a line break after its only colon nothing matches, and the
      device suffix stays: the corner case the model of the sender shows. */
  lemma StripDeviceKeepsMultiline()
    ensures StripDevice("94:7\nx") == "94:7\nx"
  {
    var s := "94:7\nx";
    forall j | 0 <= j < |s| ensures !MatchesAt(s, j) {
      if j == 2 {
        assert IsLineTerminator(s[4]);
      }
    }
  }

  /** Without line terminators, the sender is the participant, or else the
      chat address, cut before its first colon, and holds no colon. */
  lemma SenderBeforeColon(participant: Option<string>, remoteJid: string)
    ensures var s := if participant.Some? && participant.value != [] then participant.value else remoteJid;
      (forall k :: 0 <= k < |s| ==> !IsLineTerminator(s[k])) ==>
        Sender(participant, remoteJid) == TakeUntil(s, ':') && ':' !in Sender(participant, remoteJid)
  {
    var s := if participant.Some? && participant.value != [] then participant.value else remoteJid;
    if forall k :: 0 <= k < |s| ==> !IsLineTerminator(s[k]) {
      StripDeviceBeforeColon(s);
    }
  }

  /** `(participant || remoteJid).replace(/:.*$/, '')`: in a group the
      participant names the sender, elsewhere the chat does; an empty
      participant counts as absent. */
  function Sender(participant: Option<string>, remoteJid: string): (r: string)
    ensures participant.Some? && participant.value != [] ==> StartsWith(participant.value, r)
    ensures (participant.None? || participant.value == []) ==> StartsWith(remoteJid, r)
  {
    StripDevice(if participant.Some? && participant.value != [] then participant.value else remoteJid)
  }
}
