/**
  The completion message sent to the operator's chat. Sending it is an outside
  effect; the model builds the message and leaves delivery to the caller.
 */
module Notify {
  import opened Wrappers
  import opened Models
  import opened Decimal

  const SuccessGlyph := "\U{2705}"                        // white heavy check mark
  const FailureGlyph := "\U{274C}"                        // cross mark
  const SuccessLabel := "\U{6210}\U{529F}"                // "succeeded"
  const FailureLabel := "\U{5931}\U{8D25}"                // "failed"
  const SecondsUnit := "\U{79D2}"                         // "seconds"
  const UnknownDuration := "\U{672A}\U{77E5}"             // "unknown"

  /** The message, line by line; the optional lines are `None` when left out. */
  datatype Notice = Notice(
    header: string,
    duration: string,
    files: string,
    commit: Option<string>,
    error: Option<string>,
    stamp: string)

  // The fixed text around each value; the Chinese reads "scheduled backup", "time taken",
  // "changed files" and "error".
  const HeaderOpen := " <b>\U{5B9A}\U{65F6}\U{5907}\U{4EFD}"
  const HeaderClose := "</b>\n\n"
  const DurationLabel := "\U{23F1} \U{8017}\U{65F6}: "
  const FilesLabel := "\U{1F4C1} \U{53D8}\U{66F4}\U{6587}\U{4EF6}: "
  const CommitOpen := "\U{1F517} Commit: <code>"
  const CommitClose := "</code>\n"
  const ErrorLabel := "\n\U{26A0}\U{FE0F} \U{9519}\U{8BEF}: "
  const StampLabel := "\n\U{1F550} "

  /** The message text: the header opens it, the timestamp line closes it, the lines in between in order. */
  function Text(n: Notice): (text: string)
    ensures |text| >= |n.header| + |n.stamp|
    ensures text[..|n.header|] == n.header
    ensures text[|text| - |n.stamp|..] == n.stamp
    ensures n.commit.None? && n.error.None? ==> text == n.header + n.duration + n.files + n.stamp
  {
    var middle := n.duration + n.files
      + (if n.commit.Some? then n.commit.value else "")
      + (if n.error.Some? then n.error.value else "");
    assert n.header + middle + n.stamp == n.header + (middle + n.stamp);
    n.header + middle + n.stamp
  }

  /** The header line: the glyph first, then the outcome between the fixed title and the closing tag. */
  function Header(glyph: string, outcome: string): (line: string)
    ensures |line| == |glyph| + |HeaderOpen| + |outcome| + |HeaderClose|
    ensures line[..|glyph|] == glyph
    ensures line[|glyph| + |HeaderOpen|..|line| - |HeaderClose|] == outcome
  {
    glyph + HeaderOpen + outcome + HeaderClose
  }

  /** The duration line: the duration text between its label and the newline. */
  function DurationLine(duration: string): (line: string)
    ensures |line| == |DurationLabel| + |duration| + 1
    ensures line[|DurationLabel|..|line| - 1] == duration && line[|line| - 1] == '\n'
  {
    DurationLabel + duration + "\n"
  }

  /** The changed-files line: the count's decimal text between its label and the newline. */
  function FilesLine(filesChanged: int): (line: string)
    ensures |line| == |FilesLabel| + |Itoa(filesChanged)| + 1
    ensures line[|FilesLabel|..|line| - 1] == Itoa(filesChanged) && line[|line| - 1] == '\n'
  {
    FilesLabel + Itoa(filesChanged) + "\n"
  }

  /** The commit line: the abbreviated hash inside a code tag. */
  function CommitLine(short: string): (line: string)
    ensures |line| == |CommitOpen| + |short| + |CommitClose|
    ensures line[|CommitOpen|..|line| - |CommitClose|] == short
  {
    CommitOpen + short + CommitClose
  }

  /** The error line: set off by an empty line, the message last. */
  function ErrorLine(message: string): (line: string)
    ensures |line| == |ErrorLabel| + |message| && line[0] == '\n'
    ensures line[|ErrorLabel|..] == message
  {
    ErrorLabel + message
  }

  /** The timestamp line, on a line of its own with the time last. */
  function StampLine(now: string): (line: string)
    ensures |line| == |StampLabel| + |now| && line[0] == '\n'
    ensures line[|StampLabel|..] == now
  {
    StampLabel + now
  }

  /** The abbreviated commit hash: its first seven characters, or all of it when shorter. */
  function ShortHash(hash: string): (short: string)
    ensures |short| == if |hash| > 7 then 7 else |hash|
    ensures short == hash[..|short|]
  {
    if |hash| > 7 then hash[..7] else hash
  }

  /**
    `SendBackupNotification`, up to the hand-off to the chat transport: no message when
    either credential is missing; otherwise the message for the finished record. The
    seconds (formatted to one decimal) and the current time arrive already formatted.
   */
  function SendBackupNotification(botToken: string, chatId: string, b: Backup, seconds: string, now: string)
    : (r: Option<Notice>)
    ensures r.None? <==> botToken == "" || chatId == ""
    ensures r.Some? ==> |r.value.header| > 0 && (r.value.header[0] == SuccessGlyph[0] <==> b.status == Succeeded)
    ensures r.Some? && b.status == Succeeded ==> r.value.header == Header(SuccessGlyph, SuccessLabel)
    ensures r.Some? && b.status != Succeeded ==> r.value.header == Header(FailureGlyph, FailureLabel)
    ensures r.Some? ==> (r.value.duration == DurationLine(UnknownDuration) <==> b.durationMs <= 0)
    ensures r.Some? && b.durationMs > 0 ==> r.value.duration == DurationLine(seconds + SecondsUnit)
    ensures r.Some? ==> r.value.files == FilesLine(b.filesChanged)
    ensures r.Some? ==> (r.value.commit.Some? <==> b.commitHash != "")
    ensures r.Some? && r.value.commit.Some? ==> r.value.commit.value == CommitLine(ShortHash(b.commitHash))
    ensures r.Some? ==> (r.value.error.Some? <==> b.status == Failed && b.errorMessage != "")
    ensures r.Some? && r.value.error.Some? ==> r.value.error.value == ErrorLine(b.errorMessage)
    ensures r.Some? ==> r.value.stamp == StampLine(now)
  {
    if botToken == "" || chatId == "" then None
    else
      var header := if b.status == Succeeded then Header(SuccessGlyph, SuccessLabel) else Header(FailureGlyph, FailureLabel);
      var duration := if b.durationMs > 0 then seconds + SecondsUnit else UnknownDuration;
      assert DurationLine(duration) == DurationLine(UnknownDuration) ==> duration == UnknownDuration by {
        assert DurationLine(duration)[|DurationLine(duration)| - 2] == duration[|duration| - 1];
      }
      assert (seconds + SecondsUnit)[|seconds + SecondsUnit| - 1] != UnknownDuration[|UnknownDuration| - 1];
      var commit := if b.commitHash != "" then Some(CommitLine(ShortHash(b.commitHash))) else None;
      var error := if b.status == Failed && b.errorMessage != "" then Some(ErrorLine(b.errorMessage)) else None;
      Some(Notice(header, DurationLine(duration), FilesLine(b.filesChanged), commit, error, StampLine(now)))
  }

  /**
    Every message sent opens with the header for the record's status and closes with the
    timestamp line, the current time last.
   */
  lemma StampIsLast(botToken: string, chatId: string, b: Backup, seconds: string, now: string)
    requires botToken != "" && chatId != ""
    ensures var text := Text(SendBackupNotification(botToken, chatId, b, seconds, now).value);
            var header := if b.status == Succeeded then Header(SuccessGlyph, SuccessLabel)
                          else Header(FailureGlyph, FailureLabel);
            && |text| >= |header| + |StampLine(now)|
            && text[..|header|] == header
            && text[|text| - |StampLine(now)|..] == StampLine(now)
            && text[|text| - |now|..] == now
  {
    var n := SendBackupNotification(botToken, chatId, b, seconds, now).value;
    var header := if b.status == Succeeded then Header(SuccessGlyph, SuccessLabel)
                  else Header(FailureGlyph, FailureLabel);
    assert n.header == header && n.stamp == StampLine(now);
    TextFrame(n, header, now);
  }

  /** A message with the given header and timestamp line opens with the one and closes with the other. */
  lemma TextFrame(n: Notice, header: string, now: string)
    requires n.header == header && n.stamp == StampLine(now)
    ensures var text := Text(n);
            && |text| >= |header| + |StampLine(now)|
            && text[..|header|] == header
            && text[|text| - |StampLine(now)|..] == StampLine(now)
            && text[|text| - |now|..] == now
  {
    SuffixOfSuffix(Text(n), n.stamp, |StampLabel|);
  }

  /** A suffix of a text's suffix is a suffix of the text. */
  lemma SuffixOfSuffix(text: string, tail: string, k: nat)
    requires |tail| <= |text| && text[|text| - |tail|..] == tail && k <= |tail|
    ensures text[|text| - (|tail| - k)..] == tail[k..]
  {
    assert text[|text| - (|tail| - k)..] == text[|text| - |tail|..][k..];
  }

  /** The changed-file count reads back from its line as the number it was written from. */
  lemma FilesLineReadsBack(b: Backup)
    requires IsInt64(b.filesChanged)
    ensures var line := FilesLine(b.filesChanged);
            Atoi(line[|FilesLabel|..|line| - 1]) == b.filesChanged
  {
    ItoaAtoi(b.filesChanged);
  }
}
