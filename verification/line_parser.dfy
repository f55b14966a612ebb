/**
 `parseMessage`: splits one raw chat line of the shape
 `:nick!ident@host PRIVMSG #channel :text` into the sender's nickname and the
 message text, using nothing but `indexOf` and `substring`. The parser never
 validates the line; on malformed input it returns whatever the JavaScript
 string operations yield.
 */
module LineParser {
  import opened JsString

  datatype ParsedMessage = ParsedMessage(message: string, username: string)

  /** The parser as written: the body after the first `:` from the first `#` on,
      the username between position 1 and the first `!`. */
  function ParseMessage(line: string): ParsedMessage {
    var command := SubstringFrom(line, IndexOf(line, '#'));
    var message := SubstringFrom(command, IndexOf(command, ':') + 1);
    var username := Substring(line, 1, IndexOf(line, '!'));
    ParsedMessage(message, username)
  }

  /** Parsing never fails and invents nothing: the message is a suffix of the
      line and the username a contiguous piece of it. */
  lemma ParseMessagePieces(line: string)
    ensures IsSuffix(ParseMessage(line).message, line)
    ensures IsFactor(ParseMessage(line).username, line)
  {
    var command := SubstringFrom(line, IndexOf(line, '#'));
    var message := SubstringFrom(command, IndexOf(command, ':') + 1);
    assert IsSuffix(message, line) by {
      SubstringFromSpec(line, IndexOf(line, '#'));
      SubstringFromSpec(command, IndexOf(command, ':') + 1);
      SuffixOfSuffix(message, command, line);
    }
    assert IsFactor(Substring(line, 1, IndexOf(line, '!')), line) by {
      SubstringSpec(line, 1, IndexOf(line, '!'));
    }
  }

  /** The wire form of a channel message: `:nick!ident PRIVMSG #channel :body`
      (`ident` carries the `user@host` part). */
  function FormatPrivmsg(nick: string, ident: string, channel: string, body: string): string {
    ":" + nick + "!" + ident + " PRIVMSG #" + channel + " :" + body
  }

  /** The fields the parser cannot tell apart from its delimiters: a `!` or `#`
      in the nickname, a `#` in the ident, a `:` in the channel name. */
  predicate Parseable(nick: string, ident: string, channel: string) {
    '!' !in nick && '#' !in nick && '#' !in ident && ':' !in channel
  }

  /** `IndexOf` finds the position `j` of the first `c`. */
  lemma IndexOfFirst(s: string, c: char, j: nat)
    requires j < |s| && s[j] == c && c !in s[..j]
    ensures IndexOf(s, c) == j
  {
    IndexOfSpec(s, c);
    assert forall i :: 0 <= i < j ==> s[..j][i] == s[i];
    assert forall r :: j < r <= |s| ==> s[..r][j] == c;
  }

  /** The message is everything after the first `:` found at or after the first `#`. */
  lemma ParseBodyAfterChannel(line: string, h: nat, k: nat)
    requires h <= k < |line|
    requires line[h] == '#' && '#' !in line[..h]
    requires line[k] == ':' && ':' !in line[h..k]
    ensures ParseMessage(line).message == line[k + 1..]
  {
    var command := line[h..];
    assert SubstringFrom(line, IndexOf(line, '#')) == command by {
      IndexOfFirst(line, '#', h);
      SubstringFromSpec(line, h);
    }
    assert SubstringFrom(command, IndexOf(command, ':') + 1) == line[k + 1..] by {
      assert command[..k - h] == line[h..k];
      IndexOfFirst(command, ':', k - h);
      SubstringFromSpec(command, k - h + 1);
      assert command[k - h + 1..] == line[k + 1..];
    }
  }

  /** With a `#` but no `:` after it, the message is the whole command part,
      from the first `#` to the end of the line. */
  lemma ParseBodyWithoutColon(line: string, h: nat)
    requires h < |line| && line[h] == '#' && '#' !in line[..h]
    requires ':' !in line[h..]
    ensures ParseMessage(line).message == line[h..]
  {
    var command := line[h..];
    assert SubstringFrom(line, IndexOf(line, '#')) == command by {
      IndexOfFirst(line, '#', h);
      SubstringFromSpec(line, h);
    }
    IndexOfSpec(command, ':');
    SubstringFromSpec(command, 0);
  }

  /** The username is what lies between the leading character and the first `!`. */
  lemma ParseUsernameBeforeBang(line: string, b: nat)
    requires 1 <= b < |line| && line[b] == '!' && '!' !in line[..b]
    ensures ParseMessage(line).username == line[1..b]
  {
    IndexOfFirst(line, '!', b);
    SubstringSpec(line, 1, b);
  }

  /** Where the delimiters of a formatted line sit: its first `!` ends the
      nickname at `b`, its first `#` opens the channel at `h` and the first `:`
      after that opens the body at `k`. */
  lemma FormattedDelimiters(nick: string, ident: string, channel: string, body: string)
    returns (line: string, b: nat, h: nat, k: nat)
    requires Parseable(nick, ident, channel)
    ensures line == FormatPrivmsg(nick, ident, channel, body)
    ensures 1 <= b < |line| && line[b] == '!' && '!' !in line[..b] && line[1..b] == nick
    ensures h <= k < |line| && line[h] == '#' && '#' !in line[..h]
    ensures line[k] == ':' && ':' !in line[h..k] && line[k + 1..] == body
  {
    line := FormatPrivmsg(nick, ident, channel, body);
    var head := ":" + nick + "!" + ident + " PRIVMSG ";
    b, h := 1 + |nick|, |head|;
    k := h + |channel| + 2;
    assert line == head + "#" + channel + " :" + body;
    assert line[..b] == ":" + nick;
    assert line[..h] == head;
    assert '#' !in " PRIVMSG ";
    assert line[h..k] == "#" + channel + " ";
  }

  /** Parsing a well-formed channel message gives back its nickname and body, for
      every body, embedded colons and all. */
  lemma ParseFormatted(nick: string, ident: string, channel: string, body: string)
    requires Parseable(nick, ident, channel)
    ensures ParseMessage(FormatPrivmsg(nick, ident, channel, body)) == ParsedMessage(body, nick)
  {
    var line, b, h, k := FormattedDelimiters(nick, ident, channel, body);
    ParseUsernameBeforeBang(line, b);
    ParseBodyAfterChannel(line, h, k);
  }

  /** With no `#` the whole line stands for the command part: the message is what
      follows its first `:`, or the entire line when it has no `:` at all. */
  lemma ParseWithoutChannel(line: string)
    requires '#' !in line
    ensures ':' !in line ==> ParseMessage(line).message == line
    ensures ':' in line ==> ParseMessage(line).message == line[IndexOf(line, ':') + 1..]
  {
    IndexOfSpec(line, '#');
    SubstringFromSpec(line, -1);
    IndexOfSpec(line, ':');
    SubstringFromSpec(line, IndexOf(line, ':') + 1);
  }

  /** The username when the line has no `!` or starts with one: the first
      character (or nothing), since `substring(1, -1)` reads as `substring(0, 1)`
      and `substring(1, 0)` as `substring(0, 1)`. */
  lemma ParseUsernameDegenerate(line: string)
    ensures '!' !in line ==> ParseMessage(line).username == line[..if |line| == 0 then 0 else 1]
    ensures 0 < |line| && line[0] == '!' ==> ParseMessage(line).username == "!"
  {
    var b := IndexOf(line, '!');
    IndexOfSpec(line, '!');
    SubstringSpec(line, 1, b);
    if b == -1 {
      assert Substring(line, 1, b) == line[..if |line| == 0 then 0 else 1];
    } else if line[0] == '!' {
      assert b == 0;
      assert Substring(line, 1, b) == line[0..1];
    }
  }

  /** A body that itself contains `: ` survives intact. */
  lemma ParseKeepsEmbeddedColon(line: string)
    requires line == ":a!b PRIVMSG #c :hello: world"
    ensures ParseMessage(line) == ParsedMessage("hello: world", "a")
  {
    assert line == FormatPrivmsg("a", "b", "c", "hello: world");
    ParseFormatted("a", "b", "c", "hello: world");
  }
}
