/**
 * The dedicated message log (`internal/logging/message_log.go`): one line per
 * incoming message in a file named after the day. The clock is a parameter:
 * timestamps and dates arrive already formatted.
 */
module MessageLog {
  import opened Wrappers
  import Text

  /** `logs/messages_<date>.log`, the file opened by `SetupMessageLogger`. */
  function FileName(date: string): (r: string)
    ensures Text.HasPrefix(r, "logs/messages_")
    ensures Text.HasSuffix(r, ".log")
    ensures |r| == |"logs/messages_"| + |date| + |".log"|
    ensures r[|"logs/messages_"|..|r| - |".log"|] == date
  {
    "logs/messages_" + date + ".log"
  }

  /** The fields of one logged message. */
  datatype Fields = Fields(
    guildName: string, guildId: string,
    channelName: string, channelId: string,
    username: string, discriminator: string, userId: string,
    content: string)

  /** The entry without its terminating newline:
      `[ts] Guild: 'gn' (gid), Channel: '#cn' (cid), User: 'u#d' (uid): content`. */
  function EntryLine(timestamp: string, f: Fields): (r: string)
    ensures |r| >= |timestamp| + 3 && r[..|timestamp| + 3] == "[" + timestamp + "] "
    ensures |r| >= |f.content| && r[|r| - |f.content|..] == f.content
  {
    var front := "[" + timestamp + "] " + GuildPart(f) + ChannelPart(f) + UserPart(f);
    assert front[..|timestamp| + 3] == "[" + timestamp + "] ";
    assert (front + f.content)[..|front|] == front;
    front + f.content
  }

  function GuildPart(f: Fields): string
  {
    "Guild: '" + f.guildName + "' (" + f.guildId + "), "
  }

  function ChannelPart(f: Fields): string
  {
    "Channel: '#" + f.channelName + "' (" + f.channelId + "), "
  }

  function UserPart(f: Fields): string
  {
    "User: '" + f.username + "#" + f.discriminator + "' (" + f.userId + "): "
  }

  /** `LogMessage`: nothing when the logger is not set up; otherwise the
      newline-terminated entry, which holds every searchable field. */
  function LogMessage(loggerReady: bool, timestamp: string, f: Fields): (r: Option<string>)
    ensures !loggerReady ==> r == None
    ensures loggerReady ==> r.Some? && r.value == EntryLine(timestamp, f) + "\n"
    ensures r.Some? ==>
      && Text.Contains(r.value, "Guild: '" + f.guildName)
      && Text.Contains(r.value, "Channel: '#" + f.channelName)
      && Text.Contains(r.value, "User: '" + f.username)
      && Text.Contains(r.value, f.content)
  {
    if !loggerReady then None
    else
      EntryContainsFields(timestamp, f);
      Some(EntryLine(timestamp, f) + "\n")
  }

  /** The fields appear in the entry behind their labels. */
  lemma EntryContainsFields(timestamp: string, f: Fields)
    ensures Text.Contains(EntryLine(timestamp, f) + "\n", "Guild: '" + f.guildName)
    ensures Text.Contains(EntryLine(timestamp, f) + "\n", "Channel: '#" + f.channelName)
    ensures Text.Contains(EntryLine(timestamp, f) + "\n", "User: '" + f.username)
    ensures Text.Contains(EntryLine(timestamp, f) + "\n", f.content)
  {
    var head := "[" + timestamp + "] ";
    var g, c, u := GuildPart(f), ChannelPart(f), UserPart(f);
    var s := EntryLine(timestamp, f) + "\n";
    EntryUnfold(timestamp, f);
    Regroup(head, g, c, u, f.content);
    PrefixInPart(s, head, g, c + u + f.content + "\n", "Guild: '" + f.guildName);
    PrefixInPart(s, head + g, c, u + f.content + "\n", "Channel: '#" + f.channelName);
    PrefixInPart(s, head + g + c, u, f.content + "\n", "User: '" + f.username);
    PrefixInPart(s, head + g + c + u, f.content, "\n", f.content);
  }

  lemma EntryUnfold(timestamp: string, f: Fields)
    ensures EntryLine(timestamp, f) + "\n"
      == "[" + timestamp + "] " + GuildPart(f) + ChannelPart(f) + UserPart(f) + f.content + "\n"
  {
  }

  /** The four ways of cutting `a + b + c + d + e + "\n"` around one part. */
  lemma Regroup(a: string, b: string, c: string, d: string, e: string)
    ensures a + b + c + d + e + "\n" == a + b + (c + d + e + "\n")
    ensures a + b + c + d + e + "\n" == (a + b) + c + (d + e + "\n")
    ensures a + b + c + d + e + "\n" == (a + b + c) + d + (e + "\n")
    ensures a + b + c + d + e + "\n" == (a + b + c + d) + e + "\n"
  {
  }

  /** A prefix of the middle part of `a + b + c` occurs in the whole. */
  lemma PrefixInPart(s: string, a: string, b: string, c: string, p: string)
    requires s == a + b + c
    requires Text.HasPrefix(b, p)
    ensures Text.Contains(s, p)
  {
    assert s[|a|..|a| + |p|] == b[..|p|];
    assert Text.OccursAt(s, p, |a|);
  }
}
