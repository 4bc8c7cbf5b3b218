/**
 * Detection of slash-commands in chat input (IrcUtils.getInitialCommand and
 * IrcUtils.getRawCommand). The command names come from an external enum of IRC
 * commands; here they are an abstract set of upper-case names.
 */
module IrcUtils {
  import opened Wrappers

  /** The marker that opens a command typed into a chat input line. */
  const CommandMarker: char := '/'

  /** The delimiters the first token is split on: space, tab, line feed, carriage return. */
  predicate IsDelimiter(c: char) {
    c == ' ' || c == '\t' || c == '\n' || c == '\r'
  }

  /** The index of the first delimiter at or after `from`, or |s| if there is none. */
  function TokenEnd(s: string, from: nat): (e: nat)
    requires from <= |s|
    ensures from <= e <= |s|
    ensures forall k :: from <= k < e ==> !IsDelimiter(s[k])
    ensures e < |s| ==> IsDelimiter(s[e])
    decreases |s| - from
  {
    if from == |s| || IsDelimiter(s[from]) then from else TokenEnd(s, from + 1)
  }

  /** The index of the first non-delimiter at or after `from`, or |s| if there is none. */
  function TokenStart(s: string, from: nat): (b: nat)
    requires from <= |s|
    ensures from <= b <= |s|
    ensures forall k :: from <= k < b ==> IsDelimiter(s[k])
    ensures b < |s| ==> !IsDelimiter(s[b])
    decreases |s| - from
  {
    if from == |s| || !IsDelimiter(s[from]) then from else TokenStart(s, from + 1)
  }

  /**
   * The first token a StringTokenizer with the delimiters above returns, or None
   * where nextToken() would throw NoSuchElementException (no token at all).
   */
  function NextToken(s: string): (t: Option<string>)
    ensures t.None? <==> forall k :: 0 <= k < |s| ==> IsDelimiter(s[k])
    ensures t.Some? ==> 0 < |t.value| && forall k :: 0 <= k < |t.value| ==> !IsDelimiter(t.value[k])
    ensures t.Some? ==> var b := TokenStart(s, 0); b < |s| && t.value == s[b..TokenEnd(s, b)]
  {
    var b := TokenStart(s, 0);
    if b == |s| then None else Some(s[b..TokenEnd(s, b)])
  }

  /** Upper-casing of one character in the English locale, restricted to ASCII letters. */
  function UpperChar(c: char): char {
    if 'a' <= c <= 'z' then (c as int - 32) as char else c
  }

  /** String.toUpperCase(Locale.ENGLISH), restricted to ASCII letters. */
  function ToUpperEnglish(s: string): string {
    seq(|s|, i requires 0 <= i < |s| => UpperChar(s[i]))
  }

  /**
   * The key looked up among the command names: the first token of `message`
   * without its first character, upper-cased.
   */
  function CommandKey(message: string): string
    requires |message| > 0 && !IsDelimiter(message[0])
  {
    ToUpperEnglish(message[1..TokenEnd(message, 0)])
  }

  /**
   * getInitialCommand: the command named by `message` when it starts with the
   * command marker, is longer than two characters and its first token, less the
   * marker, names a command in `commands` case-insensitively; None otherwise.
   */
  function GetInitialCommand(message: string, commands: set<string>): (r: Option<string>)
    ensures |message| <= 2 ==> r == None
    ensures |message| > 0 && message[0] != CommandMarker ==> r == None
    ensures r.Some? <==> |message| > 2 && message[0] == CommandMarker && CommandKey(message) in commands
    ensures r.Some? ==> r.value == CommandKey(message) && r.value in commands
  {
    if |message| > 2 && message[0] == CommandMarker then
      var firstToken := NextToken(message).value;
      var name := ToUpperEnglish(firstToken[1..]);
      if name in commands then Some(name) else None
    else
      None
  }

  /** getRawCommand: the message without its first character (the command marker). */
  function GetRawCommand(message: string): (r: string)
    requires |message| > 0
    ensures |r| == |message| - 1
    ensures [message[0]] + r == message
  {
    message[1..]
  }

  /** Upper-casing leaves delimiters where they are and creates none. */
  lemma UpperCharKeepsDelimiters(c: char)
    ensures IsDelimiter(UpperChar(c)) <==> IsDelimiter(c)
    ensures UpperChar(c) == CommandMarker <==> c == CommandMarker
  {
  }

  /** Two strings equal up to ASCII case have their first delimiter at the same place. */
  lemma {:induction false} TokenEndIgnoresCase(s: string, t: string, from: nat)
    requires |s| == |t| && from <= |s|
    requires forall k :: 0 <= k < |s| ==> UpperChar(s[k]) == UpperChar(t[k])
    ensures TokenEnd(s, from) == TokenEnd(t, from)
    decreases |s| - from
  {
    if from < |s| {
      UpperCharKeepsDelimiters(s[from]);
      UpperCharKeepsDelimiters(t[from]);
      if !IsDelimiter(s[from]) {
        TokenEndIgnoresCase(s, t, from + 1);
      }
    }
  }

  /**
   * Command detection is case-insensitive: two inputs that differ only in the
   * case of ASCII letters name the same command, or both none.
   */
  lemma CommandDetectionIgnoresCase(m: string, n: string, commands: set<string>)
    requires |m| == |n|
    requires forall k :: 0 <= k < |m| ==> UpperChar(m[k]) == UpperChar(n[k])
    ensures GetInitialCommand(m, commands) == GetInitialCommand(n, commands)
  {
    if |m| > 2 {
      UpperCharKeepsDelimiters(m[0]);
      UpperCharKeepsDelimiters(n[0]);
      if m[0] == CommandMarker {
        TokenEndIgnoresCase(m, n, 0);
        var e := TokenEnd(m, 0);
        assert ToUpperEnglish(m[1..e]) == ToUpperEnglish(n[1..e]);
      }
    }
  }

  /** The first delimiter after a delimiter-free prefix is where that prefix ends. */
  lemma {:induction false} TokenEndOfPrefix(tok: string, rest: string, from: nat)
    requires from <= |tok|
    requires forall k :: 0 <= k < |tok| ==> !IsDelimiter(tok[k])
    requires |rest| > 0 && IsDelimiter(rest[0])
    ensures TokenEnd(tok + rest, from) == |tok|
    decreases |tok| - from
  {
    if from < |tok| {
      TokenEndOfPrefix(tok, rest, from + 1);
    }
  }

  /**
   * Text after the first delimiter has no influence on the command detected,
   * once the first token is long enough to pass the length test on its own.
   */
  lemma TextAfterFirstTokenIgnored(tok: string, d: char, rest: string, commands: set<string>)
    requires |tok| > 2
    requires forall k :: 0 <= k < |tok| ==> !IsDelimiter(tok[k])
    requires IsDelimiter(d)
    ensures GetInitialCommand(tok + [d] + rest, commands) == GetInitialCommand(tok, commands)
  {
    var m := tok + [d] + rest;
    assert m == tok + ([d] + rest);
    TokenEndOfPrefix(tok, [d] + rest, 0);
    assert m[0] == tok[0];
    assert TokenEnd(tok, 0) == |tok|;
    assert m[1..|tok|] == tok[1..|tok|];
    assert CommandKey(m) == CommandKey(tok);
  }

  /** A detected command is the upper-cased start of the raw command sent in its place. */
  lemma RawCommandStartsWithCommand(message: string, commands: set<string>)
    requires GetInitialCommand(message, commands).Some?
    ensures var raw := GetRawCommand(message);
      var e := TokenEnd(message, 0) - 1;
      0 <= e <= |raw| && ToUpperEnglish(raw[..e]) == GetInitialCommand(message, commands).value
  {
    var e := TokenEnd(message, 0);
    assert GetRawCommand(message)[..e - 1] == message[1..e];
  }

  /** "/whois bob" is routed as the WHOIS command when WHOIS is a known command. */
  lemma WhoisIsCommand(commands: set<string>)
    requires "WHOIS" in commands
    ensures GetInitialCommand("/whois bob", commands) == Some("WHOIS")
  {
    var m := "/whois bob";
    assert m == "/whois" + " bob";
    TokenEndOfPrefix("/whois", " bob", 0);
    assert m[1..6] == "whois";
    assert ToUpperEnglish("whois") == "WHOIS";
    assert CommandKey(m) == "WHOIS";
  }

  /** "hello /slash" is plain chat: the marker is not at the start. */
  lemma MarkerNotFirstIsChat(commands: set<string>)
    ensures GetInitialCommand("hello /slash", commands) == None
  {
  }
}
