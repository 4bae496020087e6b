/** rust/crates/browser-platform/src/navigation.rs and the generators of
    rust/apps/server/src/services.rs: invite links that survive their own parser. */
module InviteLink {
  import opened Common

  const ROOM_FIELD := "room="
  const CAPABILITY_FIELD := "capability="

  predicate RoomChar(c: char) { 'A' <= c <= 'Z' || '2' <= c <= '9' }
  predicate HexChar(c: char) { '0' <= c <= '9' || 'a' <= c <= 'f' }

  predicate IsRoomCode(s: string) { |s| == 6 && forall i :: 0 <= i < |s| ==> RoomChar(s[i]) }
  predicate IsCapability(s: string) { |s| == 64 && forall i :: 0 <= i < |s| ==> HexChar(s[i]) }

  datatype Intent = JoinRoom(roomCode: string, capability: string)

  /** str::split on one character: always at least one field. */
  function Split(s: string, sep: char): (fields: seq<string>)
    ensures |fields| >= 1
  {
    if s == [] then [[]]
    else if s[0] == sep then [[]] + Split(s[1..], sep)
    else
      var rest := Split(s[1..], sep);
      [[s[0]] + rest[0]] + rest[1..]
  }

  function StripPrefix(s: string, prefix: string): Option<string> {
    if prefix <= s then Some(s[|prefix|..]) else None
  }

  /** launch_intent_from_fragment */
  function Parse(hash: string): Option<Intent> {
    match StripPrefix(hash, "#")
    case None => None
    case Some(body) =>
      var fields := Split(body, '&');
      if |fields| != 2 then None
      else
        match (StripPrefix(fields[0], ROOM_FIELD), StripPrefix(fields[1], CAPABILITY_FIELD))
        case (Some(room), Some(capability)) =>
          if IsRoomCode(room) && IsCapability(capability) then Some(JoinRoom(room, capability)) else None
        case _ => None
  }

  /** The fragment of invite_url_from_origin. */
  function Print(intent: Intent): string {
    "#" + ROOM_FIELD + intent.roomCode + "&" + CAPABILITY_FIELD + intent.capability
  }

  lemma {:induction false} SplitNone(s: string, sep: char)
    requires sep !in s
    ensures Split(s, sep) == [s]
  {
    if s != [] {
      SplitNone(s[1..], sep);
      assert s == [s[0]] + s[1..];
    }
  }

  lemma {:induction false} SplitTwo(a: string, b: string, sep: char)
    requires sep !in a
    ensures Split(a + [sep] + b, sep) == [a] + Split(b, sep)
  {
    if a == [] {
      assert a + [sep] + b == [sep] + b;
    } else {
      assert (a + [sep] + b)[1..] == a[1..] + [sep] + b;
      SplitTwo(a[1..], b, sep);
      assert a == [a[0]] + a[1..];
    }
  }

  /** Two fields come from exactly one text. */
  lemma {:induction false} SplitInverse(s: string, sep: char)
    ensures Split(s, sep)[0] <= s
    ensures |Split(s, sep)| == 1 ==> s == Split(s, sep)[0]
    ensures |Split(s, sep)| == 2 ==> s == Split(s, sep)[0] + [sep] + Split(s, sep)[1]
  {
    if s != [] {
      SplitInverse(s[1..], sep);
      assert s == [s[0]] + s[1..];
    }
  }

  /** Every well-formed invitation survives printing and parsing, and nothing else does. */
  lemma ParsePrint(intent: Intent)
    ensures Parse(Print(intent)) == Some(intent) <==> IsRoomCode(intent.roomCode) && IsCapability(intent.capability)
  {
    if IsRoomCode(intent.roomCode) && IsCapability(intent.capability) {
      var first, second := ROOM_FIELD + intent.roomCode, CAPABILITY_FIELD + intent.capability;
      var text := Print(intent);
      assert text[1..] == first + ['&'] + second;
      assert '&' !in ROOM_FIELD && '&' !in CAPABILITY_FIELD;
      SplitTwo(first, second, '&');
      SplitNone(second, '&');
      assert Split(text[1..], '&') == [first, second];
      assert first[|ROOM_FIELD|..] == intent.roomCode && second[|CAPABILITY_FIELD|..] == intent.capability;
    }
  }

  /** The parser accepts only the canonical fragment of what it returns. */
  lemma PrintParse(hash: string)
    requires Parse(hash).Some?
    ensures hash == Print(Parse(hash).value)
  {
    var body := hash[1..];
    SplitInverse(body, '&');
    var fields := Split(body, '&');
    var intent := Parse(hash).value;
    assert fields[0] == ROOM_FIELD + intent.roomCode;
    assert fields[1] == CAPABILITY_FIELD + intent.capability;
    assert hash == "#" + body;
  }

  // ----- what the server generates

  const ALPHABET := "ABCDEFGHJKLMNPQR" + "STUVWXYZ23456789"
  const HEX := "0123456789abcdef"

  lemma AlphabetIsReadable(i: nat)
    requires i < 32
    ensures |ALPHABET| == 32 && RoomChar(ALPHABET[i])
  {
    var left, right := "ABCDEFGHJKLMNPQR", "STUVWXYZ23456789";
    assert i < 16 ==> ALPHABET[i] == left[i] && RoomChar(left[i]);
    assert i >= 16 ==> ALPHABET[i] == right[i - 16] && RoomChar(right[i - 16]);
  }

  /** random_room_code, from the bytes of a UUID */
  method RandomRoomCode(uuid: seq<Byte>) returns (code: string)
    requires |uuid| == 16
    ensures IsRoomCode(code)
    ensures forall i :: 0 <= i < 6 ==> code[i] == ALPHABET[uuid[i] as int % 32]
  {
    code := "";
    for i := 0 to 6
      invariant |code| == i
      invariant forall k :: 0 <= k < i ==> RoomChar(code[k]) && code[k] == ALPHABET[uuid[k] as int % 32]
    {
      AlphabetIsReadable(uuid[i] as int % 32);
      code := code + [ALPHABET[uuid[i] as int % 32]];
    }
  }

  lemma HexDigit(v: nat)
    requires v < 16
    ensures HexChar(HEX[v]) && HexValue(HEX[v]) == v
  {
    assert v == 0 || v == 1 || v == 2 || v == 3 || v == 4 || v == 5 || v == 6 || v == 7
        || v == 8 || v == 9 || v == 10 || v == 11 || v == 12 || v == 13 || v == 14 || v == 15;
  }

  function HexValue(c: char): nat {
    if '0' <= c <= '9' then c as int - '0' as int
    else if 'a' <= c <= 'f' then c as int - 'a' as int + 10 else 0
  }

  /** Reading a capability back into the digest it came from. */
  function Unhex(s: string): seq<int> {
    if |s| < 2 then [] else [HexValue(s[0]) * 16 + HexValue(s[1])] + Unhex(s[2..])
  }

  /** hex_lower: twice as many lower-case digits, from which the bytes can be read back. */
  method HexLower(bytes: seq<Byte>) returns (output: string)
    ensures |output| == 2 * |bytes|
    ensures forall i :: 0 <= i < |output| ==> HexChar(output[i])
    ensures Unhex(output) == seq(|bytes|, i requires 0 <= i < |bytes| => bytes[i] as int)
  {
    output := "";
    ghost var plain: seq<int> := [];
    for i := 0 to |bytes|
      invariant |output| == 2 * i
      invariant forall k :: 0 <= k < |output| ==> HexChar(output[k])
      invariant |plain| == i && Unhex(output) == plain
      invariant forall k :: 0 <= k < i ==> plain[k] == bytes[k] as int
    {
      var high, low := bytes[i] as int / 16, bytes[i] as int % 16;
      HexDigit(high);
      HexDigit(low);
      UnhexAppend(output, HEX[high], HEX[low]);
      output := output + [HEX[high], HEX[low]];
      plain := plain + [bytes[i] as int];
    }
  }

  lemma {:induction false} UnhexAppend(s: string, a: char, b: char)
    requires |s| % 2 == 0
    ensures Unhex(s + [a, b]) == Unhex(s) + [HexValue(a) * 16 + HexValue(b)]
    decreases |s|
  {
    if |s| >= 2 {
      assert (s + [a, b])[2..] == s[2..] + [a, b];
      UnhexAppend(s[2..], a, b);
    } else {
      assert s + [a, b] == [a, b];
    }
  }

  /** Whatever UUID and whatever 32-byte digest the server draws, the invitation it prints is
      the invitation the browser reads. */
  method InvitationRoundTrip(uuid: seq<Byte>, digest: seq<Byte>) returns (intent: Intent, fragment: string)
    requires |uuid| == 16 && |digest| == 32
    ensures Parse(fragment) == Some(intent)
    ensures Unhex(intent.capability) == seq(32, i requires 0 <= i < 32 => digest[i] as int)
    ensures |intent.roomCode| == 6 && forall i :: 0 <= i < 6 ==> intent.roomCode[i] == ALPHABET[uuid[i] as int % 32]
  {
    var code := RandomRoomCode(uuid);
    var capability := HexLower(digest);
    intent := JoinRoom(code, capability);
    fragment := Print(intent);
    ParsePrint(intent);
  }
}
