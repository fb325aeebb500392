/**
 * The message-log search tool (`cmd/msglog/main.go`): which file it opens,
 * which lines it prints and counts, and how it lists the dates on file.
 * Opening, scanning and the directory glob are left to the caller: the tool
 * is given the file's text and the matched base file names.
 */
module MsgLog {
  import Text
  import MessageLog

  /** `filepath.Join("logs", "messages_<date>.log")`. With no '/' in the date
      the join's path cleaning has nothing to do. */
  function LogPath(date: string): (r: string)
    requires '/' !in date
    ensures r == MessageLog.FileName(date)
  {
    "logs" + "/" + "messages_" + date + ".log"
  }

  /** The four command-line filters; an empty one is off. */
  datatype Filters = Filters(user: string, guild: string, channel: string, content: string)

  const NoFilters := Filters("", "", "", "")

  /** A line is printed iff every non-empty filter's pattern occurs in it. */
  predicate Kept(line: string, f: Filters)
  {
    && (f.user == "" || Text.Contains(line, "User: '" + f.user))
    && (f.guild == "" || Text.Contains(line, "Guild: '" + f.guild))
    && (f.channel == "" || Text.Contains(line, "Channel: '#" + f.channel))
    && (f.content == "" || Text.Contains(line, f.content))
  }

  /** The kept lines, in file order. */
  function KeptLines(lines: seq<string>, f: Filters): (r: seq<string>)
    ensures |r| <= |lines|
    ensures forall x :: x in r <==> x in lines && Kept(x, f)
  {
    if |lines| == 0 then []
    else
      var front := lines[..|lines| - 1];
      assert forall x :: x in lines <==> x in front || x == lines[|lines| - 1] by {
        assert lines == front + [lines[|lines| - 1]];
      }
      KeptLines(front, f) + (if Kept(lines[|lines| - 1], f) then [lines[|lines| - 1]] else [])
  }

  /** Filtering keeps file order: the kept lines of two stretches of the
      file are the kept lines of the first followed by those of the second. */
  lemma {:induction false} KeptLinesConcat(a: seq<string>, b: seq<string>, f: Filters)
    ensures KeptLines(a + b, f) == KeptLines(a, f) + KeptLines(b, f)
    decreases |b|
  {
    if |b| > 0 {
      var b0 := b[..|b| - 1];
      assert (a + b)[..|a + b| - 1] == a + b0;
      assert (a + b)[|a + b| - 1] == b[|b| - 1];
      KeptLinesConcat(a, b0, f);
    } else {
      assert a + b == a;
    }
  }

  /** With every filter off, each line is printed. */
  lemma {:induction false} NoFiltersKeepAll(lines: seq<string>)
    ensures KeptLines(lines, NoFilters) == lines
  {
    if |lines| > 0 {
      NoFiltersKeepAll(lines[..|lines| - 1]);
      assert lines[..|lines| - 1] + [lines[|lines| - 1]] == lines;
    }
  }

  /** The scan loop of `main`: the lines printed, `matchCount` and `lineCount`. */
  method Search(text: string, f: Filters) returns (printed: seq<string>, matchCount: nat, lineCount: nat)
    ensures lineCount == |Text.ScanLines(text)|
    ensures printed == KeptLines(Text.ScanLines(text), f)
    ensures matchCount == |printed|
    ensures matchCount <= lineCount
    ensures forall k :: 0 <= k < |printed| ==> Kept(printed[k], f) && printed[k] in Text.ScanLines(text)
    ensures forall x :: x in Text.ScanLines(text) && Kept(x, f) ==> x in printed
  {
    var lines := Text.ScanLines(text);
    printed, matchCount, lineCount := [], 0, 0;
    while lineCount < |lines|
      invariant lineCount <= |lines|
      invariant printed == KeptLines(lines[..lineCount], f)
      invariant matchCount == |printed|
      invariant forall k :: 0 <= k < |printed| ==> Kept(printed[k], f) && printed[k] in lines[..lineCount]
    {
      var line := lines[lineCount];
      assert lines[..lineCount + 1][..lineCount] == lines[..lineCount];
      lineCount := lineCount + 1;
      if Kept(line, f) {
        printed := printed + [line];
        matchCount := matchCount + 1;
      }
    }
    assert lines[..lineCount] == lines;
  }

  /** No field of the entry holds a line break, so it is a single line. */
  predicate SingleLine(timestamp: string, g: MessageLog.Fields)
  {
    && '\n' !in timestamp
    && '\n' !in g.guildName && '\n' !in g.guildId
    && '\n' !in g.channelName && '\n' !in g.channelId
    && '\n' !in g.username && '\n' !in g.discriminator && '\n' !in g.userId
    && '\n' !in g.content
    && (|g.content| == 0 || g.content[|g.content| - 1] != '\r')
  }

  /** The filters a user would type to find this message: each either off
      or a leading part of the field (any part of the content). */
  predicate FindsFields(f: Filters, g: MessageLog.Fields)
  {
    && (f.user == "" || Text.HasPrefix(g.username, f.user))
    && (f.guild == "" || Text.HasPrefix(g.guildName, f.guild))
    && (f.channel == "" || Text.HasPrefix(g.channelName, f.channel))
    && (f.content == "" || Text.Contains(g.content, f.content))
  }

  /** A message logged by `LogMessage` comes back from the file as one line,
      and that line passes any filter drawn from its own fields. */
  lemma LoggedEntryIsFound(timestamp: string, g: MessageLog.Fields, f: Filters)
    requires SingleLine(timestamp, g)
    requires FindsFields(f, g)
    ensures var entry := MessageLog.LogMessage(true, timestamp, g).value;
      && Text.ScanLines(entry) == [MessageLog.EntryLine(timestamp, g)]
      && Kept(MessageLog.EntryLine(timestamp, g), f)
  {
    EntryScansBack(timestamp, g);
    EntryPassesFilters(timestamp, g, f);
  }

  /** The entry is one line: no line break inside, no trailing carriage return. */
  lemma EntryIsOneLine(timestamp: string, g: MessageLog.Fields)
    requires SingleLine(timestamp, g)
    ensures '\n' !in MessageLog.EntryLine(timestamp, g)
    ensures Text.DropCR(MessageLog.EntryLine(timestamp, g)) == MessageLog.EntryLine(timestamp, g)
  {
    var head := "[" + timestamp + "] ";
    var gp, cp, up := MessageLog.GuildPart(g), MessageLog.ChannelPart(g), MessageLog.UserPart(g);
    assert '\n' !in head;
    assert '\n' !in gp;
    assert '\n' !in cp;
    assert '\n' !in up;
    var front := head + gp + cp + up;
    assert front[|front| - 1] == ' ';
    assert MessageLog.EntryLine(timestamp, g) == front + g.content;
  }

  lemma EntryScansBack(timestamp: string, g: MessageLog.Fields)
    requires SingleLine(timestamp, g)
    ensures Text.ScanLines(MessageLog.LogMessage(true, timestamp, g).value) == [MessageLog.EntryLine(timestamp, g)]
  {
    var line := MessageLog.EntryLine(timestamp, g);
    EntryIsOneLine(timestamp, g);
    Text.ScanLinesOfTerminated([line]);
    assert Text.Terminated([line]) == line + "\n";
  }

  lemma EntryPassesFilters(timestamp: string, g: MessageLog.Fields, f: Filters)
    requires SingleLine(timestamp, g)
    requires FindsFields(f, g)
    ensures Kept(MessageLog.EntryLine(timestamp, g), f)
  {
    var line := MessageLog.EntryLine(timestamp, g);
    MessageLog.EntryContainsFields(timestamp, g);
    if f.user != "" {
      FieldFilterPasses(line, "User: '", g.username, f.user);
    }
    if f.guild != "" {
      FieldFilterPasses(line, "Guild: '", g.guildName, f.guild);
    }
    if f.channel != "" {
      FieldFilterPasses(line, "Channel: '#", g.channelName, f.channel);
    }
    if f.content != "" {
      ContentFilterPasses(line, g.content, f.content);
    }
  }

  /** A content filter taken from the message's content finds its line. */
  lemma ContentFilterPasses(line: string, content: string, p: string)
    requires Text.Contains(line + "\n", content)
    requires '\n' !in content
    requires Text.Contains(content, p)
    ensures Text.Contains(line, p)
  {
    Text.ContainsTransitive(line + "\n", content, p);
    var i :| Text.OccursAt(content, p, i);
    assert p == content[i..i + |p|];
    assert '\n' !in p;
    DropNewline(line, p);
  }

  /** A field filter finds the line its labelled field was written into. */
  lemma FieldFilterPasses(line: string, tag: string, field: string, p: string)
    requires Text.Contains(line + "\n", tag + field)
    requires '\n' !in tag && '\n' !in field
    requires Text.HasPrefix(field, p)
    ensures Text.Contains(line, tag + p)
  {
    PrefixPattern(line + "\n", tag, field, p);
    assert '\n' !in p by {
      assert forall k :: 0 <= k < |p| ==> p[k] == field[k];
    }
    DropNewline(line, tag + p);
  }

  /** A labelled field occurs, so the tag with a prefix of the field does. */
  lemma PrefixPattern(s: string, tag: string, field: string, p: string)
    requires Text.Contains(s, tag + field)
    requires Text.HasPrefix(field, p)
    ensures Text.Contains(s, tag + p)
  {
    var i :| Text.OccursAt(s, tag + field, i);
    assert (tag + field)[..|tag + p|] == tag + p;
    assert s[i..i + |tag + p|] == (tag + field)[..|tag + p|];
    assert Text.OccursAt(s, tag + p, i);
  }

  /** A pattern without a newline found in `line + "\n"` lies within `line`. */
  lemma DropNewline(line: string, p: string)
    requires '\n' !in p
    requires Text.Contains(line + "\n", p)
    ensures Text.Contains(line, p)
  {
    var i :| Text.OccursAt(line + "\n", p, i);
    if |p| == 0 {
      assert Text.OccursAt(line, p, 0);
    } else {
      assert p[|p| - 1] == (line + "\n")[i + |p| - 1];
      assert i + |p| <= |line|;
      assert line[i..i + |p|] == (line + "\n")[i..i + |p|];
      assert Text.OccursAt(line, p, i);
    }
  }

  /** A whole day's file, written entry by entry, is read back line for line;
      with no filters every entry is printed and counted. */
  lemma {:induction false} SearchAllOfFile(lines: seq<string>)
    requires forall k :: 0 <= k < |lines| ==> '\n' !in lines[k]
    requires forall k :: 0 <= k < |lines| ==> Text.DropCR(lines[k]) == lines[k]
    ensures KeptLines(Text.ScanLines(Text.Terminated(lines)), NoFilters) == lines
  {
    Text.ScanLinesOfTerminated(lines);
    NoFiltersKeepAll(lines);
  }

  /** The date `listAvailableLogs` shows for a base file name: the second
      '_'-separated part without ".log", or the whole name when it has no '_'. */
  function DisplayDate(filename: string): (r: string)
    ensures '_' !in filename ==> r == filename
  {
    var parts := Text.Split(filename, '_');
    assert '_' !in filename ==> parts == [filename] by {
      if '_' !in filename {
        Text.SplitUnique(filename, '_', [filename]);
      }
    }
    if |parts| >= 2 then Text.TrimSuffix(parts[1], ".log") else filename
  }

  /** The listing recovers the date of every log file named after a date
      without an underscore. */
  lemma DisplayDateRoundTrip(date: string)
    requires '_' !in date && '/' !in date
    ensures DisplayDate(LogPath(date)[|"logs/"|..]) == date
  {
    var name := "messages_" + date + ".log";
    assert LogPath(date)[|"logs/"|..] == name;
    assert '_' !in "messages" && '_' !in date + ".log";
    assert Text.Join(["messages", date + ".log"], '_') == name;
    Text.SplitUnique(name, '_', ["messages", date + ".log"]);
    assert Text.HasSuffix(date + ".log", ".log");
  }

  /** `listAvailableLogs`: one line per file, or a notice when there is none. */
  function ListAvailableLogs(filenames: seq<string>): (r: seq<string>)
    ensures |filenames| == 0 ==> r == ["No message log files found."]
    ensures |filenames| > 0 ==> |r| == |filenames|
    ensures |filenames| > 0 ==> forall k :: 0 <= k < |r| ==> r[k] == " - " + DisplayDate(filenames[k])
  {
    if |filenames| == 0 then ["No message log files found."]
    else seq(|filenames|, k requires 0 <= k < |filenames| => " - " + DisplayDate(filenames[k]))
  }
}
